/**
 Exactly which upload names are accepted, and as what (internal/api/attachments.go), told on
 characters: white space, separators, the portable characters and the eight extensions.
 */
module AttachmentNameRules {
  import opened Wrappers
  import opened Paths
  import opened AttachmentNames

  /** White space in Unicode's sense, as the trimming of names takes it. */
  ghost predicate WhiteSpace(c: char) {
    || c in {' ', '\t', '\n', '\U{0B}', '\U{0C}', '\r', '\U{85}', '\U{A0}', '\U{1680}', '\U{2028}', '\U{2029}'}
    || c in {'\U{202F}', '\U{205F}', '\U{3000}', '\U{2000}', '\U{2001}', '\U{2002}', '\U{2003}', '\U{2004}'}
    || c in {'\U{2005}', '\U{2006}', '\U{2007}', '\U{2008}', '\U{2009}', '\U{200A}'}
  }

  ghost predicate AllWhiteSpace(s: string) {
    forall i :: 0 <= i < |s| ==> WhiteSpace(s[i])
  }

  /** A character a stored name may have. */
  ghost predicate Portable(c: char) {
    'A' <= c <= 'Z' || 'a' <= c <= 'z' || '0' <= c <= '9' || c in {'.', '_', '-'}
  }

  ghost predicate AllPortable(s: string) {
    forall i :: 0 <= i < |s| ==> Portable(s[i])
  }

  /** The letters of ext are those of lower, each in either case. */
  ghost predicate SameLetters(ext: string, lower: string) {
    |ext| == |lower| && forall i :: 0 <= i < |lower| ==>
      ext[i] == lower[i] || ('a' <= lower[i] <= 'z' && ext[i] as int == lower[i] as int - 32)
  }

  /** One of the eight extensions, in any letter case. */
  ghost predicate KnownExt(ext: string) {
    || SameLetters(ext, ".png") || SameLetters(ext, ".jpg") || SameLetters(ext, ".jpeg") || SameLetters(ext, ".webp")
    || SameLetters(ext, ".txt") || SameLetters(ext, ".md") || SameLetters(ext, ".json") || SameLetters(ext, ".log")
  }

  lemma {:induction false} LowerLength(s: string)
    ensures |ToLower(s)| == |s| && forall i :: 0 <= i < |s| ==> ToLower(s)[i] == Lower(s[i])
  {
    if s != "" {
      LowerLength(s[1..]);
    }
  }

  lemma LowerIff(ext: string, lower: string)
    requires forall i :: 0 <= i < |lower| ==> lower[i] == '.' || 'a' <= lower[i] <= 'z'
    ensures ToLower(ext) == lower <==> SameLetters(ext, lower)
  {
    LowerLength(ext);
    if SameLetters(ext, lower) {
      assert forall i :: 0 <= i < |lower| ==> ToLower(ext)[i] == lower[i];
    }
  }

  lemma AllowedIff(ext: string)
    ensures AllowedExt(ToLower(ext)) <==> KnownExt(ext)
  {
    hide ToLower, SameLetters;
    LowerIff(ext, ".png");
    LowerIff(ext, ".jpg");
    LowerIff(ext, ".jpeg");
    LowerIff(ext, ".webp");
    LowerIff(ext, ".txt");
    LowerIff(ext, ".md");
    LowerIff(ext, ".json");
    LowerIff(ext, ".log");
  }

  /** A known extension is a dot and letters. */
  lemma KnownExtShape(ext: string)
    requires KnownExt(ext)
    ensures 3 <= |ext| && ext[0] == '.' && AllPortable(ext) && '.' !in ext[1..] && SEP !in ext
  {
  }

  lemma {:induction false} ExtAt(name: string, k: nat, i: nat)
    requires k < i <= |name| && name[k] == '.' && SEP !in name[k..] && '.' !in name[k + 1..]
    ensures ExtBefore(name, i) == name[k..]
    decreases i
  {
    assert i - 1 > k ==> name[i - 1] == name[k + 1..][i - 2 - k];
    assert name[i - 1] == name[k..][i - 1 - k];
    if i - 1 > k {
      ExtAt(name, k, i - 1);
    }
  }

  lemma ExtOfStem(stem: string, ext: string)
    requires KnownExt(ext)
    ensures Ext(stem + ext) == ext
  {
    KnownExtShape(ext);
    var name, k := stem + ext, |stem|;
    assert name[k..] == ext && name[k + 1..] == ext[1..];
    ExtAt(name, k, |name|);
  }

  /** A stored name in full: a stem that does not start with a dot, and a known extension, in 255 bytes. */
  ghost predicate Storable(stem: string, ext: string) {
    stem != "" && AllPortable(stem) && stem[0] != '.' && KnownExt(ext) && |stem + ext| <= 255
  }

  ghost predicate StorableName(name: string) {
    exists n :: 0 <= n <= |name| && Storable(name[..n], name[n..])
  }

  /** The text around a name: white space, directories in front, separators behind. */
  ghost predicate Around(left: string, dirs: string, slashes: string, right: string) {
    && AllWhiteSpace(left) && AllWhiteSpace(right)
    && (dirs == "" || dirs[|dirs| - 1] == '/')
    && forall i :: 0 <= i < |slashes| ==> slashes[i] == '/'
  }

  // ---------- every storable name is accepted ----------

  lemma StorableChecks(name: string)
    requires StorableName(name)
    ensures name != "" && name != "." && name != ".." && SEP !in name
    ensures !WhiteSpace(name[0]) && !WhiteSpace(name[|name| - 1])
    ensures ByteLen(name) <= MAX_NAME_BYTES && MatchesPattern(name) && name[0] != '.'
    ensures AllowedExt(ToLower(Ext(name)))
  {
    hide ToLower, AllowedExt, SameLetters, ExtBefore;
    var n :| 0 <= n <= |name| && Storable(name[..n], name[n..]);
    assert name == name[..n] + name[n..];
    KnownExtShape(name[n..]);
    assert forall i :: 0 <= i < |name| ==> Portable(name[i]);
    ByteLenOfPattern(name);
    ExtOfStem(name[..n], name[n..]);
    AllowedIff(name[n..]);
  }

  lemma {:induction false} TrimLeftDrops(left: string, s: string)
    requires s != "" && !WhiteSpace(s[0])
    ensures exists k :: 0 <= k <= |left| && TrimLeft(left + s) == left[k..] + s
    ensures AllWhiteSpace(left) ==> TrimLeft(left + s) == s
  {
    if left == "" {
      assert left + s == s && left[0..] + s == s;
    } else {
      assert (left + s)[0] == left[0] && (left + s)[1..] == left[1..] + s;
      if IsSpace(left[0]) {
        TrimLeftDrops(left[1..], s);
        var k :| 0 <= k <= |left| - 1 && TrimLeft(left[1..] + s) == left[1..][k..] + s;
        assert left[1..][k..] == left[k + 1..];
      } else {
        assert left[0..] + s == left + s;
      }
    }
  }

  lemma {:induction false} TrimRightDrops(s: string, right: string)
    requires s != "" && !WhiteSpace(s[|s| - 1]) && AllWhiteSpace(right)
    ensures TrimRight(s + right) == s
  {
    if right == "" {
      assert s + right == s;
    } else {
      var n := |right| - 1;
      assert (s + right)[|s + right| - 1] == right[n];
      assert (s + right)[..|s + right| - 1] == s + right[..n];
      TrimRightDrops(s, right[..n]);
    }
  }

  /** Trimming leaves the text between the white space, or some end of what stands before it. */
  lemma TrimmedLeft(left: string, dirs: string, s: string) returns (x: string)
    requires AllWhiteSpace(left) && s != "" && !WhiteSpace(s[0]) && (dirs == "" || dirs[|dirs| - 1] == SEP)
    ensures TrimLeft(left + dirs + s) == x + s && (x == "" || x[|x| - 1] == SEP)
  {
    hide WhiteSpace, TrimLeft;
    if dirs == "" {
      TrimLeftDrops(left, s);
      assert left + dirs == left && "" + s == s;
      x := "";
    } else {
      TrimLeftDrops(left + dirs, s);
      var k :| 0 <= k <= |left + dirs| && TrimLeft(left + dirs + s) == (left + dirs)[k..] + s;
      x := (left + dirs)[k..];
      assert x != "" ==> x[|x| - 1] == dirs[|dirs| - 1];
    }
  }

  lemma SplitAfter(dir: string, name: string)
    requires SEP !in name && (dir == "" || dir[|dir| - 1] == SEP)
    ensures Split(dir + name)[|Split(dir + name)| - 1] == name
  {
    SplitNoSep(name);
    if dir == "" {
      assert dir + name == name;
    } else {
      var d := dir[..|dir| - 1];
      assert dir + name == d + [SEP] + name;
      SplitConcat(d, name);
    }
  }

  lemma {:induction false} TrimmedBase(dir: string, name: string, slashes: string)
    requires name != "" && SEP !in name && (dir == "" || dir[|dir| - 1] == SEP)
    requires forall i :: 0 <= i < |slashes| ==> slashes[i] == SEP
    ensures BaseTrimmed(dir + name + slashes) == name
  {
    var path := dir + name + slashes;
    if slashes == "" {
      assert path == dir + name && path[|path| - 1] == name[|name| - 1];
      SplitAfter(dir, name);
    } else {
      var n := |slashes| - 1;
      assert path[|path| - 1] == SEP && path[..|path| - 1] == dir + name + slashes[..n];
      TrimmedBase(dir, name, slashes[..n]);
    }
  }

  /** Base sees past trailing separators; on such a path both of its forms agree. */
  lemma BaseIsTrimmed(path: string)
    requires |path| > 0 && (path[|path| - 1] == SEP ==> |path| > 1)
    ensures Base(path) == BaseTrimmed(path)
  {
  }

  /** The name looked at is the one between the white space, the directories and the separators. */
  lemma BaseWithin(left: string, dirs: string, name: string, slashes: string, right: string)
    requires name != "" && SEP !in name && !WhiteSpace(name[0]) && !WhiteSpace(name[|name| - 1])
    requires Around(left, dirs, slashes, right)
    ensures Base(TrimSpace(left + dirs + name + slashes + right)) == name
  {
    hide TrimLeft, TrimRight, Base, BaseTrimmed;
    var s := name + slashes;
    var raw := left + dirs + name + slashes + right;
    assert raw == left + dirs + (s + right);
    assert (s + right)[0] == name[0];
    var x := TrimmedLeft(left, dirs, s + right);
    assert x + (s + right) == (x + s) + right;
    assert s[|s| - 1] == if slashes == "" then name[|name| - 1] else '/';
    assert (x + s)[|x + s| - 1] == s[|s| - 1];
    TrimRightDrops(x + s, right);
    assert x + s == x + name + slashes;
    TrimmedBase(x, name, slashes);
    BaseIsTrimmed(x + s);
  }

  /** A storable name is accepted as itself, whatever white space, directories and separators surround it. */
  lemma StorableNameAccepted(left: string, dirs: string, name: string, slashes: string, right: string)
    requires StorableName(name) && Around(left, dirs, slashes, right)
    ensures SanitizeAttachmentName(left + dirs + name + slashes + right) == Ok(name)
  {
    StorableChecks(name);
    hide StorableName, WhiteSpace, AllowedExt, ToLower, ExtBefore, ByteLen, MatchesPattern, TrimSpace, Base;
    BaseWithin(left, dirs, name, slashes, right);
  }

  // ---------- nothing else is accepted ----------

  lemma {:induction false} TrimLeftTakes(s: string) returns (left: string)
    ensures AllWhiteSpace(left) && s == left + TrimLeft(s)
  {
    left := "";
    if s != "" && IsSpace(s[0]) {
      var rest := TrimLeftTakes(s[1..]);
      left := [s[0]] + rest;
      assert s == [s[0]] + s[1..];
    }
  }

  lemma {:induction false} TrimRightTakes(s: string) returns (right: string)
    ensures AllWhiteSpace(right) && s == TrimRight(s) + right
  {
    right := "";
    if s != "" && IsSpace(s[|s| - 1]) {
      var rest := TrimRightTakes(s[..|s| - 1]);
      right := rest + [s[|s| - 1]];
      assert s == s[..|s| - 1] + [s[|s| - 1]];
    }
  }

  lemma {:induction false} LastSegment(s: string) returns (dirs: string)
    ensures s == dirs + Split(s)[|Split(s)| - 1]
    ensures if |Split(s)| == 1 then dirs == "" else dirs != "" && dirs[|dirs| - 1] == SEP
  {
    dirs := "";
    if s != "" {
      var rest := LastSegment(s[1..]);
      assert s == [s[0]] + s[1..];
      if s[0] == SEP || |Split(s[1..])| > 1 {
        dirs := [s[0]] + rest;
      }
    }
  }

  lemma {:induction false} BaseTakes(path: string) returns (dirs: string, slashes: string)
    requires SEP !in BaseTrimmed(path)
    ensures path == dirs + BaseTrimmed(path) + slashes && (dirs == "" || dirs[|dirs| - 1] == SEP)
    ensures forall i :: 0 <= i < |slashes| ==> slashes[i] == SEP
  {
    hide Split;
    if path[|path| - 1] == SEP {
      var n := |path| - 1;
      dirs, slashes := BaseTakes(path[..n]);
      slashes := slashes + [SEP];
      assert path == path[..n] + [SEP];
    } else {
      dirs := LastSegment(path);
      slashes := "";
    }
  }

  lemma AcceptedIsStorable(raw: string)
    requires SanitizeAttachmentName(raw).Ok?
    ensures StorableName(SanitizeAttachmentName(raw).value)
  {
    hide ToLower, AllowedExt, SameLetters, ExtBefore;
    var name := SanitizeAttachmentName(raw).value;
    ByteLenOfPattern(name);
    var ext := Ext(name);
    AllowedIff(ext);
    KnownExtShape(ext);
    ExtIsSuffix(name, |name|);
    var n := |name| - |ext|;
    assert name[n..] == ext;
    assert name == name[..n] + ext;
    assert name[0] != ext[0];
    assert Storable(name[..n], name[n..]);
  }

  /** A trimmed path around its last segment, separators behind it dropped. */
  lemma PathShape(path: string, name: string) returns (dirs: string, slashes: string)
    requires Base(path) == name && name != "" && name != "." && SEP !in name
    ensures path == dirs + name + slashes && Around("", dirs, slashes, "")
  {
    hide BaseTrimmed, WhiteSpace;
    assert path != "" && path != [SEP];
    BaseIsTrimmed(path);
    dirs, slashes := BaseTakes(path);
  }

  lemma Regroup(left: string, dirs: string, name: string, slashes: string, right: string)
    ensures left + (dirs + name + slashes + right) == left + dirs + name + slashes + right
  {
  }

  /** An accepted name is a storable one, and the raw name only adds white space, directories and separators. */
  lemma AcceptedShape(raw: string) returns (left: string, dirs: string, slashes: string, right: string)
    requires SanitizeAttachmentName(raw).Ok?
    ensures var name := SanitizeAttachmentName(raw).value;
            StorableName(name) && Around(left, dirs, slashes, right) && raw == left + dirs + name + slashes + right
  {
    var name := SanitizeAttachmentName(raw).value;
    assert Base(TrimSpace(raw)) == name;
    hide SanitizeAttachmentName, Base, StorableName, WhiteSpace, TrimLeft, TrimRight;
    AcceptedIsStorable(raw);
    assert name != "" && name != "." && SEP !in name by {
      StorableChecks(name);
    }
    left := TrimLeftTakes(raw);
    right := TrimRightTakes(TrimLeft(raw));
    dirs, slashes := PathShape(TrimSpace(raw), name);
    Regroup(left, dirs, name, slashes, right);
  }

  /**
   The rule for every raw name: it is accepted as a given name exactly when that name is
   storable and the raw name is it with white space, directories and separators around.
   */
  lemma AcceptedIff(raw: string, name: string)
    ensures SanitizeAttachmentName(raw) == Ok(name) <==>
            && StorableName(name)
            && exists left, dirs, slashes, right ::
                 Around(left, dirs, slashes, right) && raw == left + dirs + name + slashes + right
  {
    hide StorableName, SanitizeAttachmentName, Around;
    if SanitizeAttachmentName(raw) == Ok(name) {
      var left, dirs, slashes, right := AcceptedShape(raw);
    }
    forall left, dirs, slashes, right
      | StorableName(name) && Around(left, dirs, slashes, right) && raw == left + dirs + name + slashes + right
      ensures SanitizeAttachmentName(raw) == Ok(name)
    {
      StorableNameAccepted(left, dirs, name, slashes, right);
    }
  }

  // ---------- the reasons for a refusal ----------

  /** The bytes of a rune in UTF-8, by its code point. */
  lemma RuneLenTable(c: char)
    ensures RuneLen(c) == if c as int < 128 then 1 else if c as int < 2048 then 2 else if c as int < 65536 then 3 else 4
  {
  }

  lemma {:induction false} BlankTrims(s: string)
    requires AllWhiteSpace(s)
    ensures TrimLeft(s) == ""
  {
    if s != "" {
      BlankTrims(s[1..]);
    }
  }

  ghost predicate EndsKnown(name: string) {
    exists n :: 0 <= n <= |name| && KnownExt(name[n..])
  }

  lemma AllowedEndsKnown(name: string)
    requires AllowedExt(ToLower(Ext(name)))
    ensures EndsKnown(name)
  {
    hide AllowedExt, ToLower, KnownExt;
    ExtIsSuffix(name, |name|);
    AllowedIff(Ext(name));
    assert KnownExt(name[|name| - |Ext(name)|..]);
  }

  /** White space alone, and the two dot segments, are no names. */
  lemma NotANameRefused(left: string, dirs: string, slashes: string, right: string)
    requires Around(left, dirs, slashes, right)
    ensures SanitizeAttachmentName(left) == Err(InvalidName)
    ensures SanitizeAttachmentName(left + dirs + "." + slashes + right) == Err(InvalidName)
    ensures SanitizeAttachmentName(left + dirs + ".." + slashes + right) == Err(InvalidName)
  {
    BlankTrims(left);
    hide TrimLeft, ByteLen, MatchesPattern;
    BaseWithin(left, dirs, ".", slashes, right);
    BaseWithin(left, dirs, "..", slashes, right);
  }

  /** Any other name is refused for the first of four reasons: too long, a character, a leading dot, its extension. */
  lemma RefusalReasons(left: string, dirs: string, name: string, slashes: string, right: string)
    requires name !in {"", ".", ".."} && SEP !in name && !WhiteSpace(name[0]) && !WhiteSpace(name[|name| - 1])
    requires Around(left, dirs, slashes, right)
    ensures var r := SanitizeAttachmentName(left + dirs + name + slashes + right);
            && (ByteLen(name) > 255 ==> r == Err(TooLong))
            && (ByteLen(name) <= 255 && !AllPortable(name) ==> r == Err(DisallowedCharacters))
            && (ByteLen(name) <= 255 && AllPortable(name) && name[0] == '.' ==> r == Err(DotPrefix))
            && (ByteLen(name) <= 255 && AllPortable(name) && name[0] != '.' && !EndsKnown(name) ==>
                  r == Err(ExtensionNotAllowed))
  {
    hide Around, WhiteSpace, TrimSpace, Base, ByteLen, AllowedExt, ToLower, ExtBefore, EndsKnown, MatchesPattern;
    hide AllPortable;
    BaseWithin(left, dirs, name, slashes, right);
    PatternIff(name);
    if AllowedExt(ToLower(Ext(name))) {
      AllowedEndsKnown(name);
    }
  }

  lemma PatternIff(name: string)
    ensures MatchesPattern(name) <==> name != "" && AllPortable(name)
  {
    assert forall c :: NameChar(c) <==> Portable(c);
  }

  /** The names tried for a storable name: itself, then "-1", "-2", ... before the extension. */
  lemma VariantsOf(stem: string, ext: string, i: nat)
    requires KnownExt(ext)
    ensures Candidate(stem + ext, i) == if i == 0 then stem + ext else stem + "-" + Itoa(i) + ext
  {
    ExtOfStem(stem, ext);
    ExtIsSuffix(stem + ext, |stem + ext|);
    assert Stem(stem + ext) == stem;
  }
}
