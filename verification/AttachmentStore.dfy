/**
 The per-task attachments directory (internal/api/attachments.go): a quota-bounded flat
 directory, saved into all-or-nothing and read back by name.
 */
module AttachmentStore {
  import opened Wrappers
  import opened Paths
  import opened AttachmentNames

  const MAX_FILE_BYTES: int := 10 * 1024 * 1024
  const MAX_TOTAL_BYTES: int := 30 * 1024 * 1024

  /** A directory entry: a regular file, or anything the reader never serves. */
  datatype Entry = Regular(data: seq<byte>) | Irregular

  type Dir = map<string, Entry>

  /**
   One multipart file: what it declares, what it holds, and which of its three
   filesystem operations go through.
   */
  datatype Upload = Upload(filename: string, size: int, data: seq<byte>, statOk: bool, openOk: bool, writeOk: bool)

  datatype SaveError = EmptyPath | FileTooLarge | BadName(reason: NameError) | NoUniqueName | OverQuota | WriteFailed

  // ---------- sizes ----------

  function EntrySize(e: Entry): nat {
    match e case Regular(data) => |data| case Irregular => 0
  }

  ghost function DirSize(d: Dir): nat {
    if d == map[] then 0
    else
      var k :| k in d;
      EntrySize(d[k]) + DirSize(d - {k})
  }

  /** The total does not depend on the order files are counted in. */
  lemma {:induction false} DirSizeWithout(d: Dir, k: string)
    requires k in d
    ensures DirSize(d) == EntrySize(d[k]) + DirSize(d - {k})
  {
    var p :| p in d && DirSize(d) == EntrySize(d[p]) + DirSize(d - {p});
    if p != k {
      DirSizeWithout(d - {p}, k);
      DirSizeWithout(d - {k}, p);
      assert d - {p} - {k} == d - {k} - {p};
    }
  }

  lemma DirSizeAdd(d: Dir, k: string, e: Entry)
    requires k !in d
    ensures DirSize(d[k := e]) == DirSize(d) + EntrySize(e)
  {
    DirSizeWithout(d[k := e], k);
    assert d[k := e] - {k} == d;
  }

  function DeclaredTotal(files: seq<Upload>): int {
    if files == [] then 0 else files[0].size + DeclaredTotal(files[1..])
  }

  predicate TrueSizes(files: seq<Upload>) {
    forall i :: 0 <= i < |files| ==> files[i].size == |files[i].data|
  }

  predicate NoFaults(files: seq<Upload>) {
    forall i :: 0 <= i < |files| ==> files[i].statOk && files[i].openOk && files[i].writeOk
  }

  // ---------- saving ----------

  /** One iteration of SaveMultipartAttachments: the name chosen, or why the file is refused. */
  function Place(d: Dir, total: int, f: Upload): Result<string, SaveError> {
    if f.size > MAX_FILE_BYTES then Err(FileTooLarge)
    else match SanitizeAttachmentName(f.filename)
      case Err(reason) => Err(BadName(reason))
      case Ok(clean) =>
        if !f.statOk then Err(NoUniqueName)
        else match FirstFree(d.Keys, clean, 0)
          case None => Err(NoUniqueName)
          case Some(name) =>
            if total + f.size > MAX_TOTAL_BYTES then Err(OverQuota)
            else if !f.openOk || !f.writeOk || |f.data| > MAX_FILE_BYTES then Err(WriteFailed)
            else Ok(name)
  }

  /** Saving files one after the other into d, which already holds total declared bytes. */
  function SaveAll(d: Dir, total: int, files: seq<Upload>): Result<(Dir, seq<string>), SaveError>
    decreases |files|
  {
    if files == [] then Ok((d, []))
    else match Place(d, total, files[0])
      case Err(e) => Err(e)
      case Ok(name) =>
        match SaveAll(d[name := Regular(files[0].data)], total + files[0].size, files[1..])
        case Err(e) => Err(e)
        case Ok(rest) => Ok((rest.0, [name] + rest.1))
  }

  predicate Distinct(names: seq<string>) {
    forall i, j :: 0 <= i < j < |names| ==> names[i] != names[j]
  }

  /** The i-th file is stored, whole, under a new and safe name. */
  ghost predicate Stored(d: Dir, f: Upload, d': Dir, name: string) {
    name !in d && SafeName(name) && |f.data| <= MAX_FILE_BYTES && name in d' && d'[name] == Regular(f.data)
  }

  /** What a successful save did to the directory. */
  ghost predicate SavedInto(d: Dir, files: seq<Upload>, d': Dir, names: seq<string>) {
    && |names| == |files|
    && Distinct(names)
    && (forall i :: 0 <= i < |names| ==> Stored(d, files[i], d', names[i]))
    && (forall k :: k in d ==> k in d' && d'[k] == d[k])
    && d'.Keys == d.Keys + NameSet(names)
  }

  function NameSet(names: seq<string>): set<string> {
    set k | k in names
  }

  lemma PlacedName(d: Dir, total: int, f: Upload)
    requires Place(d, total, f).Ok?
    ensures var name := Place(d, total, f).value; name !in d && SafeName(name) && |f.data| <= MAX_FILE_BYTES
  {
    SanitizedIsSafe(f.filename);
    var clean := SanitizeAttachmentName(f.filename).value;
    FirstFreeIsCandidate(d.Keys, clean, 0);
    var k :| FoundAt(d.Keys, clean, 0, k, Place(d, total, f).value);
    SafeHasStem(clean);
    CandidateSafe(clean, k);
  }

  lemma NamesCons(name: string, names: seq<string>)
    ensures NameSet([name] + names) == {name} + NameSet(names)
    ensures Distinct(names) && name !in names ==> Distinct([name] + names)
  {
    forall i, j | Distinct(names) && name !in names && 0 <= i < j < |[name] + names|
      ensures ([name] + names)[i] != ([name] + names)[j]
    {
      assert ([name] + names)[j] == names[j - 1];
    }
  }

  /** A file stored beside d1's files is stored beside fewer files too, under another name. */
  lemma StoredCons(d: Dir, name: string, e: Entry, f: Upload, d': Dir, other: string)
    requires Stored(d[name := e], f, d', other)
    ensures Stored(d, f, d', other) && other != name
  {
    hide SafeName;
  }

  lemma AllStoredCons(d: Dir, f: Upload, rest: seq<Upload>, d': Dir, name: string, names: seq<string>)
    requires |names| == |rest| && Stored(d, f, d', name)
    requires forall i :: 0 <= i < |names| ==> Stored(d[name := Regular(f.data)], rest[i], d', names[i])
    ensures name !in names
    ensures forall i :: 0 <= i < |[name] + names| ==> Stored(d, ([f] + rest)[i], d', ([name] + names)[i])
  {
    hide Stored;
    forall i | 0 <= i < |names| ensures Stored(d, rest[i], d', names[i]) && names[i] != name {
      StoredCons(d, name, Regular(f.data), rest[i], d', names[i]);
    }
    forall i | 0 <= i < |[name] + names| ensures Stored(d, ([f] + rest)[i], d', ([name] + names)[i]) {
      if i > 0 {
        assert ([f] + rest)[i] == rest[i - 1] && ([name] + names)[i] == names[i - 1];
      }
    }
  }

  /** One more file in front of files already saved. */
  lemma SavedIntoCons(d: Dir, f: Upload, rest: seq<Upload>, d': Dir, name: string, names: seq<string>)
    requires name !in d && SafeName(name) && |f.data| <= MAX_FILE_BYTES
    requires SavedInto(d[name := Regular(f.data)], rest, d', names)
    ensures SavedInto(d, [f] + rest, d', [name] + names)
  {
    hide SafeName, Distinct, NameSet;
    var d1 := d[name := Regular(f.data)];
    assert name in d1 && d'[name] == d1[name];
    NamesCons(name, names);
    AllStoredCons(d, f, rest, d', name, names);
    assert forall k :: k in d ==> k in d1 && d1[k] == d[k];
    assert d1.Keys == d.Keys + {name};
  }

  /**
   On success no earlier file changed, every saved name is new, safe and distinct from
   the others, and holds exactly the uploaded bytes.
   */
  lemma {:induction false} SaveAllSaves(d: Dir, total: int, files: seq<Upload>)
    requires SaveAll(d, total, files).Ok?
    ensures var (d', names) := SaveAll(d, total, files).value; SavedInto(d, files, d', names)
    decreases |files|
  {
    hide Place, SafeName, SavedInto;
    if files == [] {
      NothingSaved(d);
    } else {
      PlacedName(d, total, files[0]);
      var name := Place(d, total, files[0]).value;
      var d1 := d[name := Regular(files[0].data)];
      SaveAllSaves(d1, total + files[0].size, files[1..]);
      var (d', rest) := SaveAll(d1, total + files[0].size, files[1..]).value;
      SavedIntoCons(d, files[0], files[1..], d', name, rest);
      assert [files[0]] + files[1..] == files;
    }
  }

  lemma NothingSaved(d: Dir)
    ensures SavedInto(d, [], d, [])
  {
    assert d.Keys + NameSet([]) == d.Keys;
  }

  /** With true sizes a successful save of at least one file ends within the quota. */
  lemma {:induction false} SaveAllWithinQuota(d: Dir, files: seq<Upload>)
    requires SaveAll(d, DirSize(d), files).Ok? && TrueSizes(files)
    ensures DirSize(SaveAll(d, DirSize(d), files).value.0) == DirSize(d) + DeclaredTotal(files)
    ensures files != [] ==> DirSize(SaveAll(d, DirSize(d), files).value.0) <= MAX_TOTAL_BYTES
    decreases |files|
  {
    hide SanitizeAttachmentName, SafeName;
    if files != [] {
      PlacedName(d, DirSize(d), files[0]);
      var name := Place(d, DirSize(d), files[0]).value;
      DirSizeAdd(d, name, Regular(files[0].data));
      SaveAllWithinQuota(d[name := Regular(files[0].data)], files[1..]);
    }
  }

  // ---------- ValidateAttachmentHeaders ----------

  /** The pre-check on headers alone, from a running total. */
  function HeadersError(files: seq<Upload>, total: int): Option<SaveError>
    decreases |files|
  {
    if files == [] then None
    else if files[0].size > MAX_FILE_BYTES then Some(FileTooLarge)
    else match SanitizeAttachmentName(files[0].filename)
      case Err(reason) => Some(BadName(reason))
      case Ok(_) =>
        if total + files[0].size > MAX_TOTAL_BYTES then Some(OverQuota)
        else HeadersError(files[1..], total + files[0].size)
  }

  /** Headers refused in an empty directory are refused in every directory. */
  lemma {:induction false} RefusedHeadersNeverSave(d: Dir, total: int, files: seq<Upload>, from: int)
    requires HeadersError(files, from).Some? && from <= total
    ensures SaveAll(d, total, files).Err?
    decreases |files|
  {
    hide SanitizeAttachmentName;
    if Place(d, total, files[0]).Ok? {
      var name := Place(d, total, files[0]).value;
      RefusedHeadersNeverSave(d[name := Regular(files[0].data)], total + files[0].size, files[1..],
          from + files[0].size);
    }
  }

  lemma RefusedEverywhere(files: seq<Upload>)
    ensures HeadersError(files, 0).Some? ==> forall d: Dir, total: nat :: SaveAll(d, total, files).Err?
  {
    hide SaveAll, HeadersError;
    if HeadersError(files, 0).Some? {
      forall d: Dir, total: nat ensures SaveAll(d, total, files).Err? {
        RefusedHeadersNeverSave(d, total, files, 0);
      }
    }
  }

  /** What the first i + 1 files declare together. */
  function DeclaredThrough(files: seq<Upload>, i: nat): int
    requires i < |files|
  {
    files[i].size + if i == 0 then 0 else DeclaredThrough(files, i - 1)
  }

  lemma {:induction false} DeclaredThroughRest(files: seq<Upload>, i: nat)
    requires i + 1 < |files|
    ensures DeclaredThrough(files, i + 1) == files[0].size + DeclaredThrough(files[1..], i)
  {
    if i > 0 {
      DeclaredThroughRest(files, i - 1);
    }
  }

  /** Header i, after those before it, breaks no rule. */
  ghost predicate HeaderFits(files: seq<Upload>, total: int, i: nat)
    requires i < |files|
  {
    && files[i].size <= 10485760
    && SanitizeAttachmentName(files[i].filename).Ok?
    && total + DeclaredThrough(files, i) <= 31457280
  }

  /** Header i is the first to break a rule: by its size, else by its name, else by the sum so far. */
  ghost predicate FirstMisfit(files: seq<Upload>, total: int, i: nat, e: SaveError) {
    && i < |files| && !HeaderFits(files, total, i) && (forall j :: 0 <= j < i ==> HeaderFits(files, total, j))
    && e == if files[i].size > 10485760 then FileTooLarge
            else if SanitizeAttachmentName(files[i].filename).Err?
            then BadName(SanitizeAttachmentName(files[i].filename).error) else OverQuota
  }

  lemma HeaderFitsRest(files: seq<Upload>, total: int, i: nat)
    requires i + 1 < |files|
    ensures HeaderFits(files, total, i + 1) <==> HeaderFits(files[1..], total + files[0].size, i)
  {
    hide SanitizeAttachmentName;
    DeclaredThroughRest(files, i);
  }

  /** The check passes exactly the uploads whose every header fits, and otherwise reports the first that does not. */
  lemma {:induction false} HeadersErrorIff(files: seq<Upload>, total: int)
    ensures HeadersError(files, total).None? <==> forall i :: 0 <= i < |files| ==> HeaderFits(files, total, i)
    ensures HeadersError(files, total).Some? ==>
              exists i: nat :: FirstMisfit(files, total, i, HeadersError(files, total).value)
    decreases |files|
  {
    hide SanitizeAttachmentName;
    if files != [] {
      if !HeaderFits(files, total, 0) {
        assert FirstMisfit(files, total, 0, HeadersError(files, total).value);
      } else {
        var rest, sum := files[1..], total + files[0].size;
        HeadersErrorIff(rest, sum);
        forall i: nat | i + 1 < |files| ensures HeaderFits(files, total, i + 1) <==> HeaderFits(rest, sum, i) {
          HeaderFitsRest(files, total, i);
        }
        HeadersErrorCons(files, total);
      }
    }
  }

  lemma HeadersErrorCons(files: seq<Upload>, total: int)
    requires files != [] && HeaderFits(files, total, 0)
    requires var rest, sum := files[1..], total + files[0].size;
             && (forall i: nat :: i + 1 < |files| ==> (HeaderFits(files, total, i + 1) <==> HeaderFits(rest, sum, i)))
             && (HeadersError(rest, sum).None? <==> forall i :: 0 <= i < |rest| ==> HeaderFits(rest, sum, i))
             && (HeadersError(rest, sum).Some? ==>
                   exists i: nat :: FirstMisfit(rest, sum, i, HeadersError(rest, sum).value))
    ensures HeadersError(files, total).None? <==> forall i :: 0 <= i < |files| ==> HeaderFits(files, total, i)
    ensures HeadersError(files, total).Some? ==>
              exists i: nat :: FirstMisfit(files, total, i, HeadersError(files, total).value)
  {
    hide SanitizeAttachmentName;
    var rest, sum := files[1..], total + files[0].size;
    assert HeadersError(files, total) == HeadersError(rest, sum);
    hide HeaderFits, HeadersError;
    forall i | 0 <= i < |files| && (forall j :: 0 <= j < |rest| ==> HeaderFits(rest, sum, j))
      ensures HeaderFits(files, total, i)
    {
      if i > 0 {
        assert HeaderFits(rest, sum, i - 1) && (i - 1) + 1 == i;
      }
    }
    if HeadersError(rest, sum).Some? {
      var e := HeadersError(rest, sum).value;
      var i: nat :| FirstMisfit(rest, sum, i, e);
      forall j | 0 <= j < i + 1 ensures HeaderFits(files, total, j) {
        if j > 0 {
          assert HeaderFits(rest, sum, j - 1) && (j - 1) + 1 == j;
        }
      }
      assert files[i + 1] == rest[i] && !HeaderFits(files, total, i + 1);
      assert FirstMisfit(files, total, i + 1, e);
    }
  }

  /**
   It passes exactly the uploads in which every header fits, refuses with the first that
   does not, and no directory whatever would have taken a refused upload.
   */
  method ValidateAttachmentHeaders(files: seq<Upload>) returns (e: Option<SaveError>)
    ensures e == HeadersError(files, 0)
    ensures e.None? <==> forall i :: 0 <= i < |files| ==> HeaderFits(files, 0, i)
    ensures e.Some? ==> exists i: nat :: FirstMisfit(files, 0, i, e.value)
    ensures e.Some? ==> forall d: Dir, total: nat :: SaveAll(d, total, files).Err?
  {
    hide SanitizeAttachmentName, SaveAll, HeaderFits, FirstMisfit;
    RefusedEverywhere(files);
    HeadersErrorIff(files, 0);
    var total := 0;
    var i := 0;
    while i < |files|
      invariant 0 <= i <= |files|
      invariant HeadersError(files, 0) == HeadersError(files[i..], total)
    {
      assert files[i..][1..] == files[i + 1..];
      if files[i].size > MAX_FILE_BYTES {
        return Some(FileTooLarge);
      }
      var name := SanitizeAttachmentName(files[i].filename);
      if name.Err? {
        return Some(BadName(name.error));
      }
      total := total + files[i].size;
      if total > MAX_TOTAL_BYTES {
        return Some(OverQuota);
      }
      i := i + 1;
    }
    return None;
  }

  /** The name a file is saved under, variants aside; files that pass the header check have one. */
  function CleanName(f: Upload): string {
    match SanitizeAttachmentName(f.filename) case Ok(name) => name case Err(_) => ""
  }

  lemma CleanNameFits(f: Upload)
    ensures |CleanName(f)| <= MAX_NAME_BYTES
  {
    hide SanitizeAttachmentName, SafeName;
    if SanitizeAttachmentName(f.filename).Ok? {
      SanitizedIsSafe(f.filename);
    }
  }

  /** Every file still finds room for its name, even if all before it took variants of the same. */
  predicate RoomForAll(present: nat, files: seq<Upload>) {
    forall i :: 0 <= i < |files| ==> present + i < Room(|CleanName(files[i])|)
  }

  lemma {:induction false} ValidatedSaves(d: Dir, total: int, files: seq<Upload>)
    requires HeadersError(files, total).None? && TrueSizes(files) && NoFaults(files) && RoomForAll(|d|, files)
    ensures SaveAll(d, total, files).Ok?
    decreases |files|
  {
    hide SanitizeAttachmentName;
    if files != [] {
      assert |d.Keys| == |d|;
      CleanNameFits(files[0]);
      FewTakenMeansFree(d.Keys, CleanName(files[0]));
      PlacedName(d, total, files[0]);
      var name := Place(d, total, files[0]).value;
      assert |d[name := Regular(files[0].data)]| == |d| + 1 by {
        assert d[name := Regular(files[0].data)].Keys == d.Keys + {name};
      }
      assert RoomForAll(|d| + 1, files[1..]) by {
        assert forall i :: 0 <= i < |files| - 1 ==> files[1..][i] == files[i + 1];
      }
      ValidatedSaves(d[name := Regular(files[0].data)], total + files[0].size, files[1..]);
    }
  }

  /**
   An upload that passes the header check saves into an empty directory, whatever names it
   repeats, when sizes are true, no filesystem operation fails of its own accord, and no
   name comes later than there is room for it: the 999th file for names of up to 251 bytes,
   the 100th for 252, the 10th for 253, the first for longer ones.
   */
  lemma ValidatedUploadSucceeds(files: seq<Upload>)
    requires HeadersError(files, 0).None? && TrueSizes(files) && NoFaults(files) && RoomForAll(0, files)
    ensures SaveAll(map[], 0, files).Ok?
  {
    ValidatedSaves(map[], 0, files);
  }

  ghost predicate VariantOf(name: string, clean: string) {
    name in FirstNames(clean, Room(|clean|))
  }

  /** A file is saved under one of the variants there is room for. */
  lemma PlacedIsVariant(d: Dir, total: int, f: Upload)
    requires Place(d, total, f).Ok?
    ensures VariantOf(Place(d, total, f).value, CleanName(f))
  {
    hide SanitizeAttachmentName;
    FirstFreeIsCandidate(d.Keys, CleanName(f), 0);
    var k :| FoundAt(d.Keys, CleanName(f), 0, k, Place(d, total, f).value);
    CleanNameFits(f);
    VariantFitsIff(CleanName(f), k);
  }

  lemma {:induction false} SavedAreVariants(d: Dir, total: int, files: seq<Upload>)
    requires SaveAll(d, total, files).Ok?
    ensures var names := SaveAll(d, total, files).value.1;
            |names| == |files| && forall i :: 0 <= i < |files| ==> VariantOf(names[i], CleanName(files[i]))
    decreases |files|
  {
    hide Place, VariantOf, CleanName;
    if files != [] {
      PlacedIsVariant(d, total, files[0]);
      var name := Place(d, total, files[0]).value;
      SavedAreVariants(d[name := Regular(files[0].data)], total + files[0].size, files[1..]);
      var names, rest := SaveAll(d, total, files).value.1,
                         SaveAll(d[name := Regular(files[0].data)], total + files[0].size, files[1..]).value.1;
      forall i | 0 <= i < |files| ensures VariantOf(names[i], CleanName(files[i])) {
        assert i > 0 ==> names[i] == rest[i - 1] && files[i] == files[1..][i - 1];
      }
    }
  }

  lemma {:induction false} DistinctCount(names: seq<string>)
    requires Distinct(names)
    ensures |NameSet(names)| == |names|
  {
    if names == [] {
      assert NameSet(names) == {};
    } else {
      var before, last := names[..|names| - 1], names[|names| - 1];
      DistinctCount(before);
      assert names == before + [last];
      assert NameSet(names) == NameSet(before) + {last};
    }
  }

  /** One name repeated more often than there is room for it never saves, in any directory. */
  lemma TooManyOfOneName(d: Dir, total: int, files: seq<Upload>, clean: string)
    requires (forall i :: 0 <= i < |files| ==> CleanName(files[i]) == clean) && SaveAll(d, total, files).Ok?
    ensures |files| <= Room(|clean|)
  {
    hide SaveAll, CleanName, Room, SafeName, Distinct;
    var names := SaveAll(d, total, files).value.1;
    SavedAreVariants(d, total, files);
    SaveAllSaves(d, total, files);
    DistinctCount(names);
    assert NameSet(names) <= FirstNames(clean, Room(|clean|));
    SubsetCount(NameSet(names), FirstNames(clean, Room(|clean|)));
    FirstNamesCount(clean, Room(|clean|));
  }

  /** So an upload of one repeated name saves into an empty directory exactly up to the room for that name. */
  lemma RepeatedNameSavesIff(files: seq<Upload>, clean: string)
    requires HeadersError(files, 0).None? && TrueSizes(files) && NoFaults(files)
    requires forall i :: 0 <= i < |files| ==> CleanName(files[i]) == clean
    ensures SaveAll(map[], 0, files).Ok? <==> |files| <= Room(|clean|)
  {
    hide SaveAll, CleanName, HeadersError, Room;
    if |files| <= Room(|clean|) {
      ValidatedUploadSucceeds(files);
    }
    if SaveAll(map[], 0, files).Ok? {
      TooManyOfOneName(map[], 0, files, clean);
    }
  }

  /** An empty text file whose name has n letters, uploaded m times. */
  function Copies(n: nat, m: nat): seq<Upload> {
    seq(m, i => Upload(LetterName(n), 0, [], true, true, true))
  }

  lemma {:induction false} CopiesPass(n: nat, files: seq<Upload>)
    requires 0 < n && n + 4 <= MAX_NAME_BYTES
    requires forall i :: 0 <= i < |files| ==> files[i] == Upload(LetterName(n), 0, [], true, true, true)
    ensures HeadersError(files, 0).None?
  {
    hide SanitizeAttachmentName, LetterName;
    if files != [] {
      LetterNameAccepted(n);
      CopiesPass(n, files[1..]);
    }
  }

  /** The failures are real: 101 files of a 252-byte name, 11 of a 253-byte one and 2 of a longer one fail. */
  lemma LongNamesFail(n: nat)
    requires 248 <= n <= 251
    ensures var files := Copies(n, Room(n + 4) + 1);
            HeadersError(files, 0).None? && TrueSizes(files) && NoFaults(files) && SaveAll(map[], 0, files).Err?
  {
    hide SaveAll, LetterName, SanitizeAttachmentName, HeadersError;
    var files := Copies(n, Room(n + 4) + 1);
    LetterNameAccepted(n);
    CopiesPass(n, files);
    assert forall i :: 0 <= i < |files| ==> CleanName(files[i]) == LetterName(n);
    RepeatedNameSavesIff(files, LetterName(n));
  }

  /**
   A file finds no name exactly if its search is stuck: every variant up to the 999th is
   taken, or every one before the first that is too long for the filesystem.
   */
  lemma NoUniqueNameIff(d: Dir, total: int, f: Upload)
    requires f.size <= MAX_FILE_BYTES && f.statOk && SanitizeAttachmentName(f.filename).Ok?
    ensures Place(d, total, f) == Err(NoUniqueName)
            <==> exists n :: StuckAt(d.Keys, SanitizeAttachmentName(f.filename).value, 0, n)
  {
    FirstFreeFailsIff(d.Keys, SanitizeAttachmentName(f.filename).value);
  }

  /** A name of 254 or 255 bytes passes the header check twice and saves once, for want of a name. */
  lemma LongNameSavesOnce(f: Upload, g: Upload)
    requires HeadersError([f, g], 0).None? && TrueSizes([f, g]) && NoFaults([f, g])
    requires SanitizeAttachmentName(f.filename) == SanitizeAttachmentName(g.filename)
    requires |SanitizeAttachmentName(f.filename).value| >= 254
    ensures SaveAll(map[], 0, [f]).Ok? && SaveAll(map[], 0, [f, g]) == Err(NoUniqueName)
  {
    hide SanitizeAttachmentName;
    var clean := SanitizeAttachmentName(f.filename).value;
    assert [f, g][0] == f && [f, g][1..] == [g] && [f][1..] == [] && [g][0] == g;
    SanitizedIsSafe(f.filename);
    CandidateLength(clean, 1);
    assert FirstFree({}, clean, 0) == Some(clean);
    var d: Dir := map[clean := Regular(f.data)];
    assert StuckAt(d.Keys, clean, 0, 1);
    NoUniqueNameIff(d, f.size, g);
  }

  // ---------- reading back ----------

  datatype ReadError = NoDirectory | InvalidLookup | NotFound | OverCap

  function FilesAt(dirs: map<string, Dir>, path: string): Dir {
    if path in dirs then dirs[path] else map[]
  }

  function ReadAttachment(dirs: map<string, Dir>, dataHome: string, taskID: string, name: string):
    Result<seq<byte>, ReadError>
  {
    var root := AttachmentsRootForTask(dataHome, taskID);
    if root == "" then Err(NoDirectory)
    else if !IsCanonicalPathComponent(name) then Err(InvalidLookup)
    else if name !in FilesAt(dirs, root) then Err(NotFound)
    else match FilesAt(dirs, root)[name]
      case Irregular => Err(NotFound)
      case Regular(data) => if |data| > MAX_FILE_BYTES then Err(OverCap) else Ok(data)
  }

  /** Everything a successful upload saved can be looked up and reads back byte for byte. */
  lemma SavedReadsBack(dirs: map<string, Dir>, dirs': map<string, Dir>, dataHome: string, taskID: string,
                       files: seq<Upload>, names: seq<string>, i: nat)
    requires AttachmentsRootForTask(dataHome, taskID) != "" && i < |names|
    requires var root := AttachmentsRootForTask(dataHome, taskID);
             SavedInto(FilesAt(dirs, root), files, FilesAt(dirs', root), names)
    ensures ReadAttachment(dirs', dataHome, taskID, names[i]) == Ok(files[i].data)
  {
    SafeIsCanonical(names[i]);
  }

  // ---------- listing ----------

  predicate Before(a: string, b: string) {
    b != "" && (a == "" || a[0] < b[0] || (a[0] == b[0] && Before(a[1..], b[1..])))
  }

  lemma {:induction false} BeforeTotal(a: string, b: string)
    ensures a == b || Before(a, b) || Before(b, a)
  {
    if a != "" && b != "" && a[0] == b[0] {
      BeforeTotal(a[1..], b[1..]);
      if a[1..] == b[1..] {
        assert a == [a[0]] + a[1..] && b == [b[0]] + b[1..];
      }
    }
  }

  lemma {:induction false} BeforeTransitive(a: string, b: string, c: string)
    requires Before(a, b) && Before(b, c)
    ensures Before(a, c)
  {
    if a != "" && a[0] == b[0] == c[0] {
      BeforeTransitive(a[1..], b[1..], c[1..]);
    }
  }

  predicate Sorted(names: seq<string>) {
    forall i, j :: 0 <= i < j < |names| ==> Before(names[i], names[j])
  }

  method InsertSorted(names: seq<string>, name: string) returns (out: seq<string>)
    requires Sorted(names) && name !in names
    ensures Sorted(out) && multiset(out) == multiset(names) + multiset{name}
  {
    var i := 0;
    while i < |names| && Before(names[i], name)
      invariant 0 <= i <= |names|
      invariant forall j :: 0 <= j < i ==> Before(names[j], name)
    {
      i := i + 1;
    }
    out := names[..i] + [name] + names[i..];
    if i < |names| {
      BeforeTotal(names[i], name);
      forall j | i < j < |names| ensures Before(name, names[j]) {
        BeforeTransitive(name, names[i], names[j]);
      }
    }
    assert names == names[..i] + names[i..];
  }

  /** A result with names saved earlier put in front. */
  function Prefixed(saved: seq<string>, r: Result<(Dir, seq<string>), SaveError>):
    Result<(Dir, seq<string>), SaveError>
  {
    match r case Err(e) => Err(e) case Ok(done) => Ok((done.0, saved + done.1))
  }

  lemma PrefixedStep(saved: seq<string>, d: Dir, total: int, files: seq<Upload>)
    requires files != [] && Place(d, total, files[0]).Ok?
    ensures var name := Place(d, total, files[0]).value;
            Prefixed(saved, SaveAll(d, total, files))
              == Prefixed(saved + [name], SaveAll(d[name := Regular(files[0].data)], total + files[0].size, files[1..]))
  {
    hide Place;
    var name := Place(d, total, files[0]).value;
    var rest := SaveAll(d[name := Regular(files[0].data)], total + files[0].size, files[1..]);
    if rest.Ok? {
      assert saved + ([name] + rest.value.1) == saved + [name] + rest.value.1;
    }
  }

  lemma PrefixedEmpty(r: Result<(Dir, seq<string>), SaveError>)
    ensures Prefixed([], r) == r
  {
    assert r.Ok? ==> [] + r.value.1 == r.value.1;
  }

  lemma PrefixedStops(saved: seq<string>, d: Dir, total: int, files: seq<Upload>)
    requires files != [] && Place(d, total, files[0]).Err?
    ensures Prefixed(saved, SaveAll(d, total, files)) == Err(Place(d, total, files[0]).error)
  {
  }

  lemma PrefixedDone(saved: seq<string>, d: Dir, total: int)
    ensures Prefixed(saved, SaveAll(d, total, [])) == Ok((d, saved))
  {
    assert saved + [] == saved;
  }

  /** Removing one more saved name still leads back to the directory before the call. */
  lemma RollbackStep(d: Dir, saved: seq<string>, name: string, e: Entry)
    requires name !in d
    ensures d[name := e] - NameSet(saved + [name]) == d - NameSet(saved)
  {
  }

  class AttachmentFs {
    var dirs: map<string, Dir>

    constructor ()
      ensures dirs == map[]
    {
      dirs := map[];
    }

    /** dirSizeBytes: adds up the regular files in whatever order the directory yields them. */
    method DirSizeBytes(path: string) returns (total: nat)
      ensures total == DirSize(FilesAt(dirs, path))
    {
      total := 0;
      var d := if path in dirs then dirs[path] else map[];
      var rest := d;
      while rest != map[]
        invariant total + DirSize(rest) == DirSize(d)
        decreases |rest|
      {
        var k :| k in rest;
        DirSizeWithout(rest, k);
        total := total + EntrySize(rest[k]);
        rest := rest - {k};
      }
    }

    /** The regular files of a task's directory, sorted; a missing directory is empty. */
    method ListAttachments(dataHome: string, taskID: string) returns (r: Option<seq<string>>)
      ensures r.None? <==> AttachmentsRootForTask(dataHome, taskID) == ""
      ensures r.Some? ==> var d := FilesAt(dirs, AttachmentsRootForTask(dataHome, taskID));
                          && Sorted(r.value)
                          && forall k :: k in r.value <==> k in d && d[k].Regular?
    {
      var root := AttachmentsRootForTask(dataHome, taskID);
      if root == "" {
        return None;
      }
      var d := FilesAt(dirs, root);
      var todo := d.Keys;
      var names: seq<string> := [];
      while todo != {}
        invariant todo <= d.Keys
        invariant Sorted(names)
        invariant forall k :: k in names <==> k in d && k !in todo && d[k].Regular?
        decreases todo
      {
        var k :| k in todo;
        todo := todo - {k};
        if d[k].Regular? {
          var before := names;
          names := InsertSorted(names, k);
          assert forall x :: x in names <==> x in multiset(names);
          assert forall x :: x in before <==> x in multiset(before);
        }
      }
      return Some(names);
    }

    /** writeAttachment: create exclusively, copy at most one byte over the cap, unlink on failure. */
    method WriteAttachment(root: string, name: string, f: Upload) returns (ok: bool)
      requires root in dirs && name !in dirs[root]
      modifies this
      ensures ok <==> f.openOk && f.writeOk && |f.data| <= MAX_FILE_BYTES
      ensures dirs == if ok then old(dirs)[root := old(dirs)[root][name := Regular(f.data)]] else old(dirs)
    {
      if !f.openOk {
        return false;
      }
      var copied := if |f.data| > MAX_FILE_BYTES + 1 then f.data[..MAX_FILE_BYTES + 1] else f.data;
      dirs := dirs[root := dirs[root][name := Regular(copied)]];
      if !f.writeOk || |copied| > MAX_FILE_BYTES {
        dirs := dirs[root := dirs[root] - {name}];
        assert dirs[root] == old(dirs)[root];
        assert dirs == old(dirs);
        return false;
      }
      return true;
    }

    /** One iteration of the save loop, up to the point where the name joins the saved list. */
    method SaveOne(root: string, total: int, f: Upload) returns (r: Result<string, SaveError>)
      requires root in dirs
      modifies this
      ensures r == old(Place(dirs[root], total, f))
      ensures dirs == if r.Ok? then old(dirs)[root := old(dirs)[root][r.value := Regular(f.data)]] else old(dirs)
    {
      hide SanitizeAttachmentName;
      if f.size > MAX_FILE_BYTES {
        return Err(FileTooLarge);
      }
      var clean := SanitizeAttachmentName(f.filename);
      if clean.Err? {
        return Err(BadName(clean.error));
      }
      var name := ResolveUniqueName(dirs[root].Keys, clean.value, f.statOk);
      if name.None? {
        return Err(NoUniqueName);
      }
      if total + f.size > MAX_TOTAL_BYTES {
        return Err(OverQuota);
      }
      FirstFreeIsCandidate(dirs[root].Keys, clean.value, 0);
      var ok := WriteAttachment(root, name.value, f);
      return if ok then Ok(name.value) else Err(WriteFailed);
    }

    /** The rollback: remove what this call had saved, one file after the other. */
    method Cleanup(root: string, saved: seq<string>)
      requires root in dirs
      modifies this
      ensures dirs == old(dirs)[root := old(dirs)[root] - NameSet(saved)]
    {
      var i := 0;
      assert old(dirs)[root] - NameSet(saved[..0]) == old(dirs)[root];
      while i < |saved|
        invariant 0 <= i <= |saved|
        invariant dirs == old(dirs)[root := old(dirs)[root] - NameSet(saved[..i])]
      {
        assert NameSet(saved[..i + 1]) == NameSet(saved[..i]) + {saved[i]};
        assert old(dirs)[root] - NameSet(saved[..i]) - {saved[i]} == old(dirs)[root] - NameSet(saved[..i + 1]);
        dirs := dirs[root := dirs[root] - {saved[i]}];
        i := i + 1;
      }
      assert saved[..i] == saved;
    }

    /**
     SaveMultipartAttachments.  Nothing outside the task's own directory changes; on any
     error the directory's files are exactly what they were.
     */
    method SaveMultipartAttachments(dataHome: string, taskID: string, files: seq<Upload>)
      returns (r: Result<seq<string>, SaveError>)
      modifies this
      ensures forall p :: p in old(dirs) && p != AttachmentsRootForTask(dataHome, taskID) ==>
              p in dirs && dirs[p] == old(dirs)[p]
      ensures forall p :: p in dirs && p != AttachmentsRootForTask(dataHome, taskID) ==> p in old(dirs)
      ensures r.Err? ==> FilesAt(dirs, AttachmentsRootForTask(dataHome, taskID))
                         == old(FilesAt(dirs, AttachmentsRootForTask(dataHome, taskID)))
      ensures files == [] ==> r == Ok([]) && dirs == old(dirs)
      ensures files != [] && AttachmentsRootForTask(dataHome, taskID) == "" ==> r == Err(EmptyPath)
      ensures files != [] && AttachmentsRootForTask(dataHome, taskID) != "" ==>
                var root := AttachmentsRootForTask(dataHome, taskID);
                var d0 := old(FilesAt(dirs, root));
                SaveAll(d0, DirSize(d0), files) == if r.Err? then Err(r.error) else Ok((FilesAt(dirs, root), r.value))
    {
      hide Place, AttachmentsRootForTask, SaveAll, SafeName, Prefixed;
      if files == [] {
        return Ok([]);
      }
      var root := AttachmentsRootForTask(dataHome, taskID);
      if root == "" {
        return Err(EmptyPath);
      }
      ghost var d0 := FilesAt(dirs, root);
      if root !in dirs {
        dirs := dirs[root := map[]];
      }
      var total: int := DirSizeBytes(root);
      ghost var spec := SaveAll(d0, total, files);
      var saved: seq<string> := [];
      var i := 0;
      PrefixedEmpty(spec);
      assert files[0..] == files && dirs[root] - NameSet(saved) == d0;
      while i < |files|
        invariant 0 <= i <= |files| && root in dirs
        invariant dirs == old(dirs)[root := dirs[root]]
        invariant dirs[root] - NameSet(saved) == d0
        invariant spec == Prefixed(saved, SaveAll(dirs[root], total, files[i..]))
      {
        assert files[i..][0] == files[i] && files[i..][1..] == files[i + 1..];
        ghost var before := dirs[root];
        var placed := SaveOne(root, total, files[i]);
        if placed.Err? {
          PrefixedStops(saved, before, total, files[i..]);
          Cleanup(root, saved);
          return Err(placed.error);
        }
        PlacedName(before, total, files[i]);
        PrefixedStep(saved, before, total, files[i..]);
        RollbackStep(before, saved, placed.value, Regular(files[i].data));
        total := total + files[i].size;
        saved := saved + [placed.value];
        i := i + 1;
      }
      assert files[i..] == [];
      PrefixedDone(saved, dirs[root], total);
      return Ok(saved);
    }
  }

  /** An upload followed by a listing: every name it returned is listed and reads back the uploaded bytes. */
  method UploadAndList(fs: AttachmentFs, dataHome: string, taskID: string, files: seq<Upload>)
    returns (r: Result<seq<string>, SaveError>, listed: Option<seq<string>>)
    modifies fs
    ensures r.Ok? && files != [] ==>
              && listed.Some? && |r.value| == |files| && Distinct(r.value)
              && (forall i :: 0 <= i < |files| ==>
                    && r.value[i] in listed.value
                    && ReadAttachment(fs.dirs, dataHome, taskID, r.value[i]) == Ok(files[i].data))
    ensures r.Err? && listed.Some? ==>
              var d := old(FilesAt(fs.dirs, AttachmentsRootForTask(dataHome, taskID)));
              forall k :: k in listed.value <==> k in d && d[k].Regular?
  {
    hide AttachmentsRootForTask, SaveAll, SafeName, ReadAttachment, IsCanonicalPathComponent;
    ghost var before := fs.dirs;
    ghost var root := AttachmentsRootForTask(dataHome, taskID);
    r := fs.SaveMultipartAttachments(dataHome, taskID, files);
    listed := fs.ListAttachments(dataHome, taskID);
    if r.Ok? && files != [] {
      var d0 := FilesAt(before, root);
      SaveAllSaves(d0, DirSize(d0), files);
      forall i | 0 <= i < |files|
        ensures r.value[i] in listed.value && ReadAttachment(fs.dirs, dataHome, taskID, r.value[i]) == Ok(files[i].data)
      {
        assert Stored(d0, files[i], FilesAt(fs.dirs, root), r.value[i]);
        SavedReadsBack(before, fs.dirs, dataHome, taskID, files, r.value, i);
      }
    }
  }
}
