/**
 Go's path/filepath on Unix: Split on the separator, Clean, Join and Base, as the
 attachment code uses them (internal/api/attachments.go).  Strings are runes.
 */
module Paths {

  const SEP := '/'

  predicate NoSep(s: string) {
    SEP !in s
  }

  /** The segments between separators; never empty. */
  function Split(s: string): (parts: seq<string>)
    ensures |parts| > 0
  {
    if s == "" then [""]
    else if s[0] == SEP then [""] + Split(s[1..])
    else
      var rest := Split(s[1..]);
      [[s[0]] + rest[0]] + rest[1..]
  }

  function Glue(parts: seq<string>): string {
    if |parts| == 0 then ""
    else if |parts| == 1 then parts[0]
    else parts[0] + [SEP] + Glue(parts[1..])
  }

  predicate AllNoSep(parts: seq<string>) {
    forall i :: 0 <= i < |parts| ==> NoSep(parts[i])
  }

  lemma {:induction false} SplitParts(s: string)
    ensures AllNoSep(Split(s))
  {
    if s != "" {
      SplitParts(s[1..]);
      var rest := Split(s[1..]);
      assert NoSep(rest[0]);
    }
  }

  /** One character in front of a text that was already split. */
  function Front(c: char, parts: seq<string>): seq<string>
    requires |parts| > 0
  {
    if c == SEP then [""] + parts else [[c] + parts[0]] + parts[1..]
  }

  lemma SplitFront(s: string)
    requires s != ""
    ensures Split(s) == Front(s[0], Split(s[1..]))
  {
  }

  lemma FrontConcat(c: char, a: seq<string>, b: seq<string>)
    requires |a| > 0
    ensures Front(c, a + b) == Front(c, a) + b
  {
    assert (a + b)[1..] == a[1..] + b;
  }

  lemma {:induction false} SplitConcat(a: string, b: string)
    ensures Split(a + [SEP] + b) == Split(a) + Split(b)
  {
    hide Split, Front;
    var ab := a + [SEP] + b;
    SplitFront(ab);
    if a == "" {
      assert ab[0] == SEP && ab[1..] == b;
      SplitStart(b);
    } else {
      SplitFront(a);
      SplitConcat(a[1..], b);
      assert ab[0] == a[0] && ab[1..] == a[1..] + [SEP] + b;
      FrontConcat(a[0], Split(a[1..]), Split(b));
    }
  }

  lemma SplitStart(b: string)
    ensures Front(SEP, Split(b)) == Split("") + Split(b)
  {
  }

  lemma {:induction false} SplitNoSep(s: string)
    requires NoSep(s)
    ensures Split(s) == [s]
  {
    if s != "" {
      SplitNoSep(s[1..]);
      assert [s[0]] + s[1..] == s;
    }
  }

  /** Gluing separator-free segments loses nothing. */
  lemma {:induction false} SplitGlue(parts: seq<string>)
    requires |parts| > 0 && AllNoSep(parts)
    ensures Split(Glue(parts)) == parts
  {
    SplitNoSep(parts[0]);
    if |parts| > 1 {
      SplitGlue(parts[1..]);
      SplitConcat(parts[0], Glue(parts[1..]));
      assert [parts[0]] + parts[1..] == parts;
    }
  }

  lemma {:induction false} GlueSnoc(parts: seq<string>, last: string)
    requires |parts| > 0
    ensures Glue(parts + [last]) == Glue(parts) + [SEP] + last
  {
    var all := parts + [last];
    if |parts| == 1 {
      assert all[1..] == [last];
    } else {
      GlueSnoc(parts[1..], last);
      assert all[1..] == parts[1..] + [last];
    }
  }

  // ---------- Clean ----------

  /** One segment of Clean's walk over a path, on the segments kept so far. */
  function Push(rooted: bool, kept: seq<string>, part: string): seq<string> {
    if part == "" || part == "." then kept
    else if part == ".." then
      if kept != [] && kept[|kept| - 1] != ".." then kept[..|kept| - 1]
      else if rooted then kept
      else kept + [".."]
    else kept + [part]
  }

  function Walk(rooted: bool, parts: seq<string>): seq<string> {
    if parts == [] then [] else Push(rooted, Walk(rooted, parts[..|parts| - 1]), parts[|parts| - 1])
  }

  function Render(rooted: bool, kept: seq<string>): string {
    if rooted then [SEP] + Glue(kept) else if kept == [] then "." else Glue(kept)
  }

  predicate Rooted(path: string) {
    path != "" && path[0] == SEP
  }

  function Clean(path: string): string {
    if path == "" then "." else Render(Rooted(path), Walk(Rooted(path), Split(path)))
  }

  function JoinAll(elems: seq<string>): string {
    if elems == [] then "" else if elems[0] != "" then Clean(Glue(elems)) else JoinAll(elems[1..])
  }

  /** The segment after the last separator, trailing separators dropped. */
  function Base(path: string): string {
    if path == "" then "."
    else if path[|path| - 1] == SEP then (if |path| == 1 then [SEP] else BaseTrimmed(path[..|path| - 1]))
    else Split(path)[|Split(path)| - 1]
  }

  function BaseTrimmed(path: string): string {
    if path == "" then [SEP]
    else if path[|path| - 1] == SEP then BaseTrimmed(path[..|path| - 1])
    else Split(path)[|Split(path)| - 1]
  }

  lemma {:induction false} WalkNoSep(rooted: bool, parts: seq<string>)
    requires AllNoSep(parts)
    ensures AllNoSep(Walk(rooted, parts))
  {
    if parts != [] {
      WalkNoSep(rooted, parts[..|parts| - 1]);
    }
  }

  /** A segment that is a name of its own is simply appended. */
  predicate Plain(part: string) {
    part != "" && part != "." && part != ".." && NoSep(part)
  }

  lemma WalkPlain(rooted: bool, parts: seq<string>, part: string)
    requires Plain(part)
    ensures Walk(rooted, parts + [part]) == Walk(rooted, parts) + [part]
  {
    assert (parts + [part])[..|parts|] == parts;
  }

  /** Joining a plain name under any directory adds exactly that name below it. */
  lemma CleanBelow(dir: string, name: string)
    requires dir != "" && Plain(name)
    ensures Clean(dir + [SEP] + name) == Render(Rooted(dir), Walk(Rooted(dir), Split(dir)) + [name])
  {
    SplitConcat(dir, name);
    SplitNoSep(name);
    WalkPlain(Rooted(dir), Split(dir), name);
  }

  lemma RenderInjective(rooted: bool, a: seq<string>, b: seq<string>)
    requires a != [] && b != []
    requires AllNoSep(a) && AllNoSep(b)
    requires Render(rooted, a) == Render(rooted, b)
    ensures a == b
  {
    assert Glue(a) == Glue(b) by {
      if rooted {
        assert Render(rooted, a)[1..] == Glue(a) && Render(rooted, b)[1..] == Glue(b);
      }
    }
    SplitGlue(a);
    SplitGlue(b);
  }

  /** What a walk keeps: real names, with ".." only at the front of a relative path. */
  predicate Normal(rooted: bool, kept: seq<string>) {
    forall i :: 0 <= i < |kept| ==>
      Plain(kept[i]) || (kept[i] == ".." && !rooted && forall j :: 0 <= j < i ==> kept[j] == "..")
  }

  lemma {:induction false} WalkNormal(rooted: bool, parts: seq<string>)
    requires AllNoSep(parts)
    ensures Normal(rooted, Walk(rooted, parts))
  {
    if parts != [] {
      WalkNormal(rooted, parts[..|parts| - 1]);
      var kept := Walk(rooted, parts[..|parts| - 1]);
      if parts[|parts| - 1] == ".." && kept != [] && kept[|kept| - 1] == ".." && !rooted {
        var i := |kept| - 1;
        assert forall j :: 0 <= j < i ==> kept[j] == "..";
      }
    }
  }

  lemma {:induction false} WalkOfNormal(rooted: bool, kept: seq<string>)
    requires Normal(rooted, kept)
    ensures Walk(rooted, kept) == kept
  {
    if kept != [] {
      var front, last := kept[..|kept| - 1], kept[|kept| - 1];
      assert Normal(rooted, front);
      WalkOfNormal(rooted, front);
      assert front + [last] == kept;
    }
  }

  /** Cleaning is idempotent on every path. */
  lemma CleanIdempotent(path: string)
    ensures Clean(Clean(path)) == Clean(path)
  {
    SplitParts(path);
    var rooted := Rooted(path);
    var kept := if path == "" then [] else Walk(rooted, Split(path));
    WalkNormal(rooted, Split(path));
    WalkOfNormal(rooted, kept);
    assert Clean(path) == Render(rooted, kept);
    CleanOfRendered(rooted, kept);
  }

  lemma CleanOfRendered(rooted: bool, kept: seq<string>)
    requires Normal(rooted, kept)
    ensures Clean(Render(rooted, kept)) == Render(rooted, kept)
  {
    WalkOfNormal(rooted, kept);
    if kept == [] {
      SplitNoSep("");
      SplitNoSep(".");
      SplitConcat("", "");
      WalkSkipsEmpty(true, []);
      WalkSkipsEmpty(true, [""]);
      var dot := ["."];
      assert "" + [SEP] + "" == [SEP] && [SEP] + Glue(kept) == [SEP] && [""] + [""] == ["", ""] && [""] + [] == [""];
      assert Walk(false, dot) == Push(false, Walk(false, dot[..0]), ".");
    } else {
      SplitGlue(kept);
      if rooted {
        SplitNoSep("");
        SplitConcat("", Glue(kept));
        assert "" + [SEP] + Glue(kept) == Render(rooted, kept);
        WalkSkipsEmpty(rooted, kept);
      } else {
        GlueStarts(kept);
      }
    }
  }

  lemma {:induction false} WalkSkipsEmpty(rooted: bool, parts: seq<string>)
    ensures Walk(rooted, [""] + parts) == Walk(rooted, parts)
  {
    if parts == [] {
      assert [""][..0] == [] && [""] + parts == [""];
    } else {
      WalkSkipsEmpty(rooted, parts[..|parts| - 1]);
      assert ([""] + parts)[..|parts|] == [""] + parts[..|parts| - 1];
    }
  }

  lemma GlueStarts(kept: seq<string>)
    requires kept != [] && kept[0] != ""
    ensures Glue(kept) != "" && Glue(kept)[0] == kept[0][0]
  {
  }

  // ---------- isCanonicalPathComponent ----------

  predicate IsCanonicalPathComponent(s: string) {
    if s == "" || s == "." || s == ".." then false
    else if SEP in s then false
    else Base(Clean(s)) == s
  }

  /** The guard admits exactly the plain names: its last test never rejects anything more. */
  lemma CanonicalIsPlain(s: string)
    ensures IsCanonicalPathComponent(s) <==> Plain(s)
  {
    if Plain(s) {
      SplitNoSep(s);
      assert Walk(false, [s]) == [s] by {
        WalkPlain(false, [], s);
        assert [] + [s] == [s];
      }
      assert Clean(s) == s;
    }
  }

  // ---------- AttachmentsRootForTask ----------

  const TASKS := "tasks"
  const ATTACHMENTS := "attachments"

  function AttachmentsRootForTask(dataHome: string, taskID: string): string {
    if dataHome == "" || taskID == "" then ""
    else if !IsCanonicalPathComponent(taskID) then ""
    else JoinAll([dataHome, TASKS, taskID, ATTACHMENTS])
  }

  function TasksDir(dataHome: string): string {
    JoinAll([dataHome, TASKS])
  }

  /** The kept segments of the data root, wherever it is. */
  function Home(dataHome: string): seq<string> {
    Walk(Rooted(dataHome), Split(dataHome))
  }

  /** Four joined elements, the last three plain, stay four levels. */
  lemma JoinThreeBelow(dir: string, a: string, b: string, c: string)
    requires dir != "" && Plain(a) && Plain(b) && Plain(c)
    ensures JoinAll([dir, a]) == Render(Rooted(dir), Home(dir) + [a])
    ensures JoinAll([dir, a, b, c]) == Render(Rooted(dir), Home(dir) + [a] + [b] + [c])
  {
    var d1 := dir + [SEP] + a;
    var d2 := d1 + [SEP] + b;
    assert Glue([dir, a]) == d1 && Glue([dir, a, b, c]) == d2 + [SEP] + c by {
      GlueSnoc([dir], a);
      GlueSnoc([dir] + [a], b);
      GlueSnoc([dir] + [a] + [b], c);
      assert [dir] + [a] == [dir, a] && [dir] + [a] + [b] + [c] == [dir, a, b, c];
    }
    HomeBelow(dir, a);
    HomeBelow(d1, b);
    CleanBelow(dir, a);
    CleanBelow(d2, c);
  }

  lemma HomeBelow(dir: string, name: string)
    requires dir != "" && Plain(name)
    ensures Home(dir + [SEP] + name) == Home(dir) + [name] && Rooted(dir + [SEP] + name) == Rooted(dir)
  {
    SplitConcat(dir, name);
    SplitNoSep(name);
    WalkPlain(Rooted(dir), Split(dir), name);
  }

  lemma RenderSnoc(rooted: bool, kept: seq<string>, a: string)
    requires kept != []
    ensures Render(rooted, kept + [a]) == Render(rooted, kept) + [SEP] + a
  {
    GlueSnoc(kept, a);
    var g := Glue(kept);
    assert [SEP] + (g + [SEP] + a) == [SEP] + g + [SEP] + a;
  }

  /**
   For every data root and task id: the directory is refused exactly when the id is not
   one literal path segment, and otherwise it is `attachments` inside the segment named
   by that id, directly under the tasks directory, whatever dots the data root contains.
   */
  lemma AttachmentsRootPlacement(dataHome: string, taskID: string)
    requires dataHome != ""
    ensures AttachmentsRootForTask(dataHome, taskID) == ""
            <==> taskID == "" || taskID == "." || taskID == ".." || SEP in taskID
    ensures AttachmentsRootForTask(dataHome, taskID) != ""
            ==> AttachmentsRootForTask(dataHome, taskID) == TasksDir(dataHome) + [SEP] + taskID + [SEP] + ATTACHMENTS
  {
    CanonicalIsPlain(taskID);
    if Plain(taskID) {
      JoinThreeBelow(dataHome, TASKS, taskID, ATTACHMENTS);
      RenderSnoc(Rooted(dataHome), Home(dataHome) + [TASKS], taskID);
      RenderSnoc(Rooted(dataHome), Home(dataHome) + [TASKS] + [taskID], ATTACHMENTS);
    }
  }

  /** Two different accepted ids never share a directory. */
  lemma AttachmentsRootInjective(dataHome: string, a: string, b: string)
    requires AttachmentsRootForTask(dataHome, a) == AttachmentsRootForTask(dataHome, b) != ""
    ensures a == b
  {
    CanonicalIsPlain(a);
    CanonicalIsPlain(b);
    JoinThreeBelow(dataHome, TASKS, a, ATTACHMENTS);
    JoinThreeBelow(dataHome, TASKS, b, ATTACHMENTS);
    SplitParts(dataHome);
    WalkNoSep(Rooted(dataHome), Split(dataHome));
    ThirdFromEnd(Rooted(dataHome), Home(dataHome) + [TASKS], a, b, ATTACHMENTS);
  }

  lemma ThirdFromEnd(rooted: bool, kept: seq<string>, a: string, b: string, c: string)
    requires AllNoSep(kept) && NoSep(a) && NoSep(b) && NoSep(c)
    requires Render(rooted, kept + [a] + [c]) == Render(rooted, kept + [b] + [c])
    ensures a == b
  {
    RenderInjective(rooted, kept + [a] + [c], kept + [b] + [c]);
    assert (kept + [a] + [c])[|kept|] == a && (kept + [b] + [c])[|kept|] == b;
  }
}
