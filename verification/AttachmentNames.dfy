/** Upload names: sanitizing and collision-free candidates (internal/api/attachments.go). */
module AttachmentNames {
  import opened Wrappers
  import opened Paths

  const MAX_NAME_BYTES := 255

  // ---------- SanitizeAttachmentName ----------

  predicate IsSpace(c: char) {
    || c == ' ' || '\t' <= c <= '\r' || c == '\U{85}' || c == '\U{A0}' || c == '\U{1680}'
    || '\U{2000}' <= c <= '\U{200A}' || c == '\U{2028}' || c == '\U{2029}' || c == '\U{202F}'
    || c == '\U{205F}' || c == '\U{3000}'
  }

  function TrimLeft(s: string): string {
    if s != "" && IsSpace(s[0]) then TrimLeft(s[1..]) else s
  }

  function TrimRight(s: string): string {
    if s != "" && IsSpace(s[|s| - 1]) then TrimRight(s[..|s| - 1]) else s
  }

  function TrimSpace(s: string): string {
    TrimRight(TrimLeft(s))
  }

  /** Bytes of a rune in UTF-8; the name cap counts bytes. */
  function RuneLen(c: char): nat {
    if c < '\U{80}' then 1 else if c < '\U{800}' then 2 else if c < '\U{10000}' then 3 else 4
  }

  function ByteLen(s: string): nat {
    if s == "" then 0 else RuneLen(s[0]) + ByteLen(s[1..])
  }

  /** The class of the filename pattern. */
  predicate NameChar(c: char) {
    'A' <= c <= 'Z' || 'a' <= c <= 'z' || '0' <= c <= '9' || c == '.' || c == '_' || c == '-'
  }

  predicate MatchesPattern(s: string) {
    s != "" && forall i :: 0 <= i < |s| ==> NameChar(s[i])
  }

  function Lower(c: char): char {
    if 'A' <= c <= 'Z' then c + 32 as char else c
  }

  function ToLower(s: string): string {
    if s == "" then "" else [Lower(s[0])] + ToLower(s[1..])
  }

  /** filepath.Ext: from the last dot of the last segment. */
  function ExtBefore(name: string, i: nat): string
    requires i <= |name|
  {
    if i == 0 || name[i - 1] == SEP then ""
    else if name[i - 1] == '.' then name[i - 1..]
    else ExtBefore(name, i - 1)
  }

  function Ext(name: string): string {
    ExtBefore(name, |name|)
  }

  predicate AllowedExt(ext: string) {
    ext == ".png" || ext == ".jpg" || ext == ".jpeg" || ext == ".webp"
    || ext == ".txt" || ext == ".md" || ext == ".json" || ext == ".log"
  }

  datatype NameError = InvalidName | TooLong | DisallowedCharacters | DotPrefix | ExtensionNotAllowed

  function SanitizeAttachmentName(raw: string): Result<string, NameError> {
    var name := Base(TrimSpace(raw));
    if name == "" || name == "." || name == ".." then Err(InvalidName)
    else if ByteLen(name) > MAX_NAME_BYTES then Err(TooLong)
    else if !MatchesPattern(name) then Err(DisallowedCharacters)
    else if name[0] == '.' then Err(DotPrefix)
    else if !AllowedExt(ToLower(Ext(name))) then Err(ExtensionNotAllowed)
    else Ok(name)
  }

  /** A name safe to store under: one plain segment of pattern characters, not hidden. */
  predicate SafeName(name: string) {
    MatchesPattern(name) && name[0] != '.'
  }

  lemma SafeIsCanonical(name: string)
    requires SafeName(name)
    ensures Plain(name) && IsCanonicalPathComponent(name)
  {
    CanonicalIsPlain(name);
  }

  lemma {:induction false} ByteLenOfPattern(s: string)
    requires forall i :: 0 <= i < |s| ==> NameChar(s[i])
    ensures ByteLen(s) == |s|
  {
    if s != "" {
      ByteLenOfPattern(s[1..]);
    }
  }

  /** An accepted name is safe and within the cap, and sanitizing it again changes nothing. */
  lemma SanitizedIsSafe(raw: string)
    requires SanitizeAttachmentName(raw).Ok?
    ensures var name := SanitizeAttachmentName(raw).value;
            && SafeName(name) && |name| <= MAX_NAME_BYTES && AllowedExt(ToLower(Ext(name)))
            && SanitizeAttachmentName(name) == Ok(name)
  {
    hide ToLower, AllowedExt, ExtBefore;
    var name := SanitizeAttachmentName(raw).value;
    ByteLenOfPattern(name);
    assert TrimSpace(name) == name;
    SplitNoSep(name);
  }

  // ---------- candidate names ----------

  function Digit(d: nat): char
    requires d < 10
  {
    '0' + d as char
  }

  function Itoa(n: nat): (s: string)
    ensures |s| > 0 && forall i :: 0 <= i < |s| ==> '0' <= s[i] <= '9'
  {
    if n < 10 then [Digit(n)] else Itoa(n / 10) + [Digit(n % 10)]
  }

  function Atoi(s: string): nat
    requires forall i :: 0 <= i < |s| ==> '0' <= s[i] <= '9'
  {
    if s == "" then 0 else 10 * Atoi(s[..|s| - 1]) + (s[|s| - 1] - '0') as nat
  }

  lemma {:induction false} AtoiItoa(n: nat)
    ensures Atoi(Itoa(n)) == n
  {
    if n >= 10 {
      AtoiItoa(n / 10);
      var s := Itoa(n);
      assert s[..|s| - 1] == Itoa(n / 10);
    } else {
      assert Itoa(n)[..0] == "";
    }
  }

  lemma {:induction false} ExtIsSuffix(name: string, i: nat)
    requires i <= |name|
    ensures var e := ExtBefore(name, i); |e| <= |name| && name[|name| - |e|..] == e && (e != "" ==> e[0] == '.')
  {
    if i > 0 && name[i - 1] != SEP && name[i - 1] != '.' {
      ExtIsSuffix(name, i - 1);
    }
  }

  function Stem(name: string): string {
    ExtIsSuffix(name, |name|);
    name[..|name| - |Ext(name)|]
  }

  /** The i-th name tried: the name itself, then "-1", "-2", ... before the extension. */
  function Candidate(name: string, i: nat): string {
    if i == 0 then name else Stem(name) + ['-'] + Itoa(i) + Ext(name)
  }

  lemma CandidatesDistinct(name: string, i: nat, j: nat)
    requires i != j
    ensures Candidate(name, i) != Candidate(name, j)
  {
    ExtIsSuffix(name, |name|);
    var stem, ext := Stem(name), Ext(name);
    assert name == stem + ext;
    if i > 0 && j > 0 && Candidate(name, i) == Candidate(name, j) {
      var ci, cj := Candidate(name, i), Candidate(name, j);
      assert ci[|stem| + 1..|ci| - |ext|] == Itoa(i);
      assert cj[|stem| + 1..|cj| - |ext|] == Itoa(j);
      AtoiItoa(i);
      AtoiItoa(j);
    }
  }

  lemma CandidateSafe(name: string, i: nat)
    requires SafeName(name)
    requires Stem(name) != ""
    ensures SafeName(Candidate(name, i))
  {
    ExtIsSuffix(name, |name|);
  }

  /** A sanitized name has something in front of its extension. */
  lemma SafeHasStem(name: string)
    requires SafeName(name)
    ensures Stem(name) != ""
  {
    ExtIsSuffix(name, |name|);
    assert name == Stem(name) + Ext(name);
  }

  /** A variant adds a dash and its number to the name. */
  lemma CandidateLength(name: string, i: nat)
    requires 0 < i < 1000
    ensures |Candidate(name, i)| == |name| + if i < 10 then 2 else if i < 100 then 3 else 4
  {
    ExtIsSuffix(name, |name|);
    assert i >= 10 ==> |Itoa(i)| == |Itoa(i / 10)| + 1;
    assert i >= 100 ==> |Itoa(i / 10)| == |Itoa(i / 10 / 10)| + 1;
  }

  const MAX_TRIES := 999

  /**
   The first of the candidates i, i+1, ... that is not taken; the last one tried is number
   998.  A candidate longer than the filesystem allows ends the search: its Stat fails.
   */
  function FirstFree(taken: set<string>, name: string, i: nat): Option<string>
    decreases MAX_TRIES - i
  {
    if i >= MAX_TRIES || |Candidate(name, i)| > MAX_NAME_BYTES then None
    else if Candidate(name, i) !in taken then Some(Candidate(name, i))
    else FirstFree(taken, name, i + 1)
  }

  /** The candidates from i up to n are taken, and n is one too many or too long to look up. */
  ghost predicate StuckAt(taken: set<string>, name: string, i: nat, n: nat) {
    && i <= n <= MAX_TRIES && (n == MAX_TRIES || |Candidate(name, n)| > MAX_NAME_BYTES)
    && forall k :: i <= k < n ==> Candidate(name, k) in taken
  }

  ghost predicate FoundAt(taken: set<string>, name: string, i: nat, k: nat, c: string) {
    i <= k < MAX_TRIES && c == Candidate(name, k) && forall l :: i <= l < k ==> Candidate(name, l) in taken
  }

  /** The name found is the first candidate not taken; otherwise the search is stuck. */
  lemma {:induction false} FirstFreeIsCandidate(taken: set<string>, name: string, i: nat)
    requires i <= MAX_TRIES
    ensures match FirstFree(taken, name, i)
            case Some(c) => c !in taken && |c| <= MAX_NAME_BYTES && exists k :: FoundAt(taken, name, i, k, c)
            case None => exists n :: StuckAt(taken, name, i, n)
    decreases MAX_TRIES - i
  {
    if i == MAX_TRIES || |Candidate(name, i)| > MAX_NAME_BYTES {
      assert StuckAt(taken, name, i, i);
    } else if Candidate(name, i) in taken {
      FirstFreeIsCandidate(taken, name, i + 1);
      if FirstFree(taken, name, i).None? {
        var n :| StuckAt(taken, name, i + 1, n);
        assert StuckAt(taken, name, i, n);
      } else {
        var c := FirstFree(taken, name, i).value;
        var k :| FoundAt(taken, name, i + 1, k, c);
        assert FoundAt(taken, name, i, k, c);
      }
    } else {
      assert FoundAt(taken, name, i, i, Candidate(name, i));
    }
  }

  /** The search fails exactly where it is stuck. */
  lemma FirstFreeFailsIff(taken: set<string>, name: string)
    ensures FirstFree(taken, name, 0).None? <==> exists n :: StuckAt(taken, name, 0, n)
  {
    FirstFreeIsCandidate(taken, name, 0);
    if n :| StuckAt(taken, name, 0, n) {
      StuckFails(taken, name, 0, n);
    }
  }

  lemma {:induction false} StuckFails(taken: set<string>, name: string, i: nat, n: nat)
    requires StuckAt(taken, name, i, n)
    ensures FirstFree(taken, name, i).None?
    decreases n - i
  {
    if i < n {
      StuckFails(taken, name, i + 1, n);
    }
  }

  function FirstNames(name: string, n: nat): set<string> {
    set k: nat | k < n :: Candidate(name, k)
  }

  lemma {:induction false} FirstNamesCount(name: string, n: nat)
    ensures |FirstNames(name, n)| == n
  {
    if n == 0 {
      assert FirstNames(name, 0) == {};
    } else {
      FirstNamesCount(name, n - 1);
      forall k: nat | k < n - 1 ensures Candidate(name, k) != Candidate(name, n - 1) {
        CandidatesDistinct(name, k, n - 1);
      }
      assert FirstNames(name, n) == FirstNames(name, n - 1) + {Candidate(name, n - 1)};
    }
  }

  lemma SubsetCount<T>(a: set<T>, b: set<T>)
    requires a <= b
    ensures |a| <= |b|
  {
    assert b == a + (b - a);
  }

  /** How many files can share a name of this many bytes before a variant gets too long. */
  function Room(bytes: nat): nat {
    if bytes <= 251 then MAX_TRIES else if bytes == 252 then 100 else if bytes == 253 then 10 else 1
  }

  /** The filesystem holds exactly the variants there is room for. */
  lemma VariantFitsIff(name: string, k: nat)
    requires |name| <= MAX_NAME_BYTES && k < MAX_TRIES
    ensures |Candidate(name, k)| <= MAX_NAME_BYTES <==> k < Room(|name|)
  {
    if k > 0 {
      CandidateLength(name, k);
    }
  }

  /** Pigeonhole: with fewer names taken than there is room for, some candidate is free. */
  lemma FewTakenMeansFree(taken: set<string>, name: string)
    requires |name| <= MAX_NAME_BYTES && |taken| < Room(|name|)
    ensures FirstFree(taken, name, 0).Some?
  {
    FirstFreeFailsIff(taken, name);
    var k := UntakenVariant(taken, name, Room(|name|));
    forall n: nat ensures !StuckAt(taken, name, 0, n) {
      if n < MAX_TRIES {
        VariantFitsIff(name, n);
      }
    }
  }

  lemma UntakenVariant(taken: set<string>, name: string, n: nat) returns (k: nat)
    requires |taken| < n
    ensures k < n && Candidate(name, k) !in taken
  {
    FirstNamesCount(name, n);
    if FirstNames(name, n) <= taken {
      SubsetCount(FirstNames(name, n), taken);
    }
    var c :| c in FirstNames(name, n) && c !in taken;
    k :| 0 <= k < n && Candidate(name, k) == c;
  }

  // ---------- a name of every length ----------

  /** A text file's name of n letters and its extension. */
  function LetterName(n: nat): string {
    seq(n, i => 'a') + ".txt"
  }

  lemma LetterNameExt(n: nat)
    ensures Ext(LetterName(n)) == ".txt" && AllowedExt(ToLower(Ext(LetterName(n))))
  {
    var name := LetterName(n);
    assert name[n..] == ".txt";
    assert ExtBefore(name, n + 1) == name[n..];
    assert ExtBefore(name, n + 2) == ExtBefore(name, n + 1);
    assert ExtBefore(name, n + 3) == ExtBefore(name, n + 2);
    assert ExtBefore(name, n + 4) == ExtBefore(name, n + 3);
    assert ".txt"[1..] == "txt" && "txt"[1..] == "xt" && "xt"[1..] == "t" && "t"[1..] == "";
    assert ToLower("") == "" && ToLower("t") == "t" && ToLower("xt") == "xt" && ToLower("txt") == "txt";
  }

  /** Every length from five bytes to the cap is the length of an accepted name. */
  lemma LetterNameAccepted(n: nat)
    requires 0 < n && n + 4 <= MAX_NAME_BYTES
    ensures SanitizeAttachmentName(LetterName(n)) == Ok(LetterName(n)) && |LetterName(n)| == n + 4
  {
    hide ToLower, AllowedExt, ExtBefore;
    var name := LetterName(n);
    LetterNameExt(n);
    ByteLenOfPattern(name);
    assert TrimSpace(name) == name;
    SplitNoSep(name);
  }

  /** resolveUniqueName's loop; statOk is false when a Stat fails for a reason of its own. */
  method ResolveUniqueName(taken: set<string>, name: string, statOk: bool) returns (r: Option<string>)
    ensures r == if statOk then FirstFree(taken, name, 0) else None
  {
    if !statOk {
      return None;
    }
    var candidate := name;
    var i := 1;
    while i < 1000
      invariant 1 <= i <= 1000
      invariant candidate == Candidate(name, i - 1)
      invariant FirstFree(taken, name, 0) == FirstFree(taken, name, i - 1)
    {
      if |candidate| > MAX_NAME_BYTES {
        return None;
      }
      if candidate !in taken {
        return Some(candidate);
      }
      candidate := Stem(name) + ['-'] + Itoa(i) + Ext(name);
      i := i + 1;
    }
    return None;
  }
}
