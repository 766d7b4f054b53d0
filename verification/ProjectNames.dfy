/**
 Project names out and back in: the exporter that writes a workspace's projects by name,
 and the two resolvers that read names back (internal/api/project_service.go:502-736).
 */
module ProjectNames {
  import opened Wrappers
  import AttachmentNameRules
  import AttachmentNames

  /** A registered project with the name its meta carries, "" when that is unavailable. */
  datatype Project = Project(id: string, name: string)

  ghost predicate DistinctIds(ps: seq<Project>) {
    forall i, j :: 0 <= i < j < |ps| ==> ps[i].id != ps[j].id
  }

  predicate Blank(name: string) {
    AttachmentNames.TrimSpace(name) == ""
  }

  /** resolveProjectByNameExact. */
  function Named(ps: seq<Project>, name: string): seq<Project> {
    if ps == [] then []
    else
      var last := ps[|ps| - 1];
      Named(ps[..|ps| - 1], name) + if last.name == name then [last] else []
  }

  function WithId(ps: seq<Project>, id: string): Option<Project> {
    if ps == [] then None
    else if ps[0].id == id then Some(ps[0])
    else WithId(ps[1..], id)
  }

  predicate Contains(s: string, part: string) {
    exists i :: 0 <= i <= |s| && part <= s[i..]
  }

  /** Names containing the reference when case is ignored. */
  function Partial(ps: seq<Project>, ref: string, lower: string -> string): seq<Project> {
    if ps == [] then []
    else
      var last := ps[|ps| - 1];
      Partial(ps[..|ps| - 1], ref, lower) + if Contains(lower(last.name), lower(ref)) then [last] else []
  }

  /** ResolveProjectRef: an id, else the exact names, else part of a name. */
  function Resolve(ps: seq<Project>, ref: string, lower: string -> string): Result<seq<Project>, nat> {
    if WithId(ps, ref).Some? then Ok([WithId(ps, ref).value])
    else if Named(ps, ref) != [] then Ok(Named(ps, ref))
    else if Partial(ps, ref, lower) != [] then Ok(Partial(ps, ref, lower))
    else Err(404)
  }

  /** projectCollisions: more than one project of that name, or the name is another project's id. */
  predicate Duplicate(ps: seq<Project>, name: string) {
    name != "" && |Named(ps, name)| > 1
  }

  predicate CollidesWithId(ps: seq<Project>, name: string) {
    && name != "" && Named(ps, name) != [] && WithId(ps, name).Some?
    && !(|Named(ps, name)| == 1 && Named(ps, name)[0].id == WithId(ps, name).value.id)
  }

  /** The name one project is exported under. */
  function ExportName(ps: seq<Project>, id: string): Result<string, nat> {
    match WithId(ps, id)
    case None => Err(500)
    case Some(p) =>
      if Blank(p.name) || Duplicate(ps, p.name) || CollidesWithId(ps, p.name) then Err(409) else Ok(p.name)
  }

  // ---------- lookups ----------

  lemma {:induction false} WithIdFinds(ps: seq<Project>, id: string)
    ensures match WithId(ps, id)
            case None => forall i :: 0 <= i < |ps| ==> ps[i].id != id
            case Some(p) => p.id == id && p in ps
  {
    if ps != [] && ps[0].id != id {
      WithIdFinds(ps[1..], id);
      assert forall i :: 0 < i < |ps| ==> ps[i] == ps[1..][i - 1];
    }
  }

  lemma {:induction false} NamedFinds(ps: seq<Project>, name: string)
    ensures forall p :: p in Named(ps, name) <==> p in ps && p.name == name
    ensures |Named(ps, name)| <= |ps|
  {
    if ps != [] {
      NamedFinds(ps[..|ps| - 1], name);
      assert forall p :: p in ps <==> p in ps[..|ps| - 1] || p == ps[|ps| - 1];
    }
  }

  lemma SameIdSameProject(ps: seq<Project>, p: Project, q: Project)
    requires DistinctIds(ps) && p in ps && q in ps && p.id == q.id
    ensures p == q
  {
    var i :| 0 <= i < |ps| && ps[i] == p;
    var j :| 0 <= j < |ps| && ps[j] == q;
    assert i == j;
  }

  lemma IdOf(ps: seq<Project>, p: Project)
    requires DistinctIds(ps) && p in ps
    ensures WithId(ps, p.id) == Some(p)
  {
    WithIdFinds(ps, p.id);
    SameIdSameProject(ps, p, WithId(ps, p.id).value);
  }

  // ---------- the round trip ----------

  /** Only p answers to this name, with either resolver. */
  ghost predicate Answers(ps: seq<Project>, p: Project, lower: string -> string) {
    Named(ps, p.name) == [p] && Resolve(ps, p.name, lower) == Ok([p])
  }

  lemma BlankEmpty()
    ensures Blank("")
  {
  }

  /**
   A named project is exported exactly when both resolvers lead from its name back to it
   and to nothing else.
   */
  lemma ExportedIff(ps: seq<Project>, p: Project, lower: string -> string)
    requires DistinctIds(ps) && p in ps && !Blank(p.name)
    ensures ExportName(ps, p.id) == Ok(p.name) <==> Answers(ps, p, lower)
  {
    hide Blank;
    BlankEmpty();
    IdOf(ps, p);
    NamedFinds(ps, p.name);
    WithIdFinds(ps, p.name);
    assert p in Named(ps, p.name);
    if |Named(ps, p.name)| == 1 {
      assert Named(ps, p.name) == [p];
    }
  }

  lemma ExportRoundTrip(ps: seq<Project>, id: string, lower: string -> string)
    requires DistinctIds(ps) && ExportName(ps, id).Ok?
    ensures var name := ExportName(ps, id).value;
            exists p :: p in ps && p.id == id && p.name == name && Answers(ps, p, lower)
  {
    hide Blank;
    WithIdFinds(ps, id);
    var p := WithId(ps, id).value;
    ExportedIff(ps, p, lower);
    assert p in ps && Answers(ps, p, lower);
  }

  // ---------- a whole export and a whole apply ----------

  /** The names of one exported workspace; the first refusal ends the export. */
  function ExportAll(ps: seq<Project>, ids: seq<string>): Result<seq<string>, nat> {
    if ids == [] then Ok([])
    else
      match ExportAll(ps, ids[..|ids| - 1])
      case Err(code) => Err(code)
      case Ok(names) =>
        match ExportName(ps, ids[|ids| - 1])
        case Err(code) => Err(code)
        case Ok(name) => Ok(names + [name])
  }

  lemma {:induction false} ExportAllNames(ps: seq<Project>, ids: seq<string>)
    ensures ExportAll(ps, ids).Ok? <==> forall k :: 0 <= k < |ids| ==> ExportName(ps, ids[k]).Ok?
    ensures ExportAll(ps, ids).Ok? ==>
              var names := ExportAll(ps, ids).value;
              |names| == |ids| && forall k :: 0 <= k < |ids| ==> ExportName(ps, ids[k]) == Ok(names[k])
  {
    hide ExportName;
    if ids != [] {
      var before := ids[..|ids| - 1];
      ExportAllNames(ps, before);
      assert forall k :: 0 <= k < |before| ==> before[k] == ids[k];
      assert ids[|ids| - 1] == ids[|before|];
    }
  }

  /** resolveWorkspaceApplyProjectNames: the ids by name, and the names nobody has. */
  datatype Resolved = Resolved(ids: map<string, string>, missing: seq<string>)

  predicate AllNamed(ps: seq<Project>) {
    forall i :: 0 <= i < |ps| ==> ps[i].name != ""
  }

  function ResolveAll(ps: seq<Project>, names: seq<string>): Result<Resolved, nat> {
    if names == [] then Ok(Resolved(map[], []))
    else
      var name := names[|names| - 1];
      match ResolveAll(ps, names[..|names| - 1])
      case Err(code) => Err(code)
      case Ok(r) =>
        if Blank(name) || Named(ps, name) == [] then Ok(r.(missing := r.missing + [name]))
        else if |Named(ps, name)| > 1 then Err(409)
        else Ok(r.(ids := r.ids[name := Named(ps, name)[0].id]))
  }

  function ResolveForApply(ps: seq<Project>, names: seq<string>): Result<Resolved, nat> {
    if !AllNamed(ps) then Err(409) else ResolveAll(ps, names)
  }

  /** What an exported name means to the apply resolver. */
  lemma ExportedResolves(ps: seq<Project>, id: string)
    requires DistinctIds(ps) && ExportName(ps, id).Ok?
    ensures var name := ExportName(ps, id).value;
            !Blank(name) && |Named(ps, name)| == 1 && Named(ps, name)[0].id == id
  {
    hide Blank;
    ExportRoundTrip(ps, id, s => s);
  }

  lemma {:induction false} ResolveAllExported(ps: seq<Project>, ids: seq<string>, names: seq<string>)
    requires DistinctIds(ps) && |names| == |ids|
    requires forall k :: 0 <= k < |ids| ==> ExportName(ps, ids[k]) == Ok(names[k])
    ensures ResolveAll(ps, names).Ok? && ResolveAll(ps, names).value.missing == []
    ensures forall k :: 0 <= k < |ids| ==>
            names[k] in ResolveAll(ps, names).value.ids && ResolveAll(ps, names).value.ids[names[k]] == ids[k]
    ensures forall name :: name in ResolveAll(ps, names).value.ids ==> name in names
  {
    hide Blank, ExportName, Named, DistinctIds;
    if ids != [] {
      var n := |ids| - 1;
      ResolveAllExported(ps, ids[..n], names[..n]);
      ExportedResolves(ps, ids[n]);
      var r0, r := ResolveAll(ps, names[..n]).value.ids, ResolveAll(ps, names).value.ids;
      assert r == r0[names[n] := ids[n]];
      forall k | 0 <= k < |ids| ensures names[k] in r && r[names[k]] == ids[k] {
        ExportedResolves(ps, ids[k]);
        assert k < n ==> names[..n][k] == names[k] && ids[..n][k] == ids[k];
      }
      assert names == names[..n] + [names[n]];
    }
  }

  /**
   Applying an exported document to an unchanged registry either is refused, exactly when
   some registered project has no name at all, or leads every name back to the project it
   was exported for, with nothing missing and no two names sharing a project.
   */
  lemma ExportAppliesBack(ps: seq<Project>, ids: seq<string>, names: seq<string>)
    requires DistinctIds(ps) && ExportAll(ps, ids) == Ok(names)
    ensures ResolveForApply(ps, names).Ok? <==> AllNamed(ps)
    ensures ResolveForApply(ps, names).Ok? ==>
              var r := ResolveForApply(ps, names).value;
              && r.missing == [] && |names| == |ids|
              && (forall k :: 0 <= k < |ids| ==> names[k] in r.ids && r.ids[names[k]] == ids[k])
              && (forall a, b :: a in r.ids && b in r.ids && r.ids[a] == r.ids[b] ==> a == b)
  {
    hide Blank, ExportName, Named, DistinctIds;
    ExportAllNames(ps, ids);
    ResolveAllExported(ps, ids, names);
    var r := ResolveAll(ps, names).value;
    forall a, b | a in r.ids && b in r.ids && r.ids[a] == r.ids[b] ensures a == b {
      var i :| 0 <= i < |names| && names[i] == a;
      var j :| 0 <= j < |names| && names[j] == b;
      assert ids[i] == ids[j];
    }
  }

  // ---------- what the resolvers answer ----------

  lemma {:induction false} TrimLeftBlank(s: string)
    ensures AttachmentNames.TrimLeft(s) == "" <==> forall i :: 0 <= i < |s| ==> AttachmentNameRules.WhiteSpace(s[i])
    ensures AttachmentNames.TrimLeft(s) != "" ==> !AttachmentNameRules.WhiteSpace(AttachmentNames.TrimLeft(s)[0])
  {
    if s != "" && AttachmentNames.IsSpace(s[0]) {
      TrimLeftBlank(s[1..]);
      assert forall i :: 0 < i < |s| ==> s[i] == s[1..][i - 1];
    }
  }

  lemma {:induction false} TrimRightKeepsHead(s: string)
    requires s != "" && !AttachmentNameRules.WhiteSpace(s[0])
    ensures AttachmentNames.TrimRight(s) != ""
  {
    if AttachmentNames.IsSpace(s[|s| - 1]) {
      TrimRightKeepsHead(s[..|s| - 1]);
    }
  }

  /** A name is blank exactly if it is all white space. */
  lemma BlankIff(name: string)
    ensures Blank(name) <==> forall i :: 0 <= i < |name| ==> AttachmentNameRules.WhiteSpace(name[i])
  {
    hide AttachmentNameRules.WhiteSpace, AttachmentNames.TrimRight, AttachmentNames.TrimLeft;
    TrimLeftBlank(name);
    var t := AttachmentNames.TrimLeft(name);
    if t != "" {
      TrimRightKeepsHead(t);
    } else {
      TrimRightEmpty();
    }
  }

  lemma TrimRightEmpty()
    ensures AttachmentNames.TrimRight("") == ""
  {
  }

  lemma ContainsIff(s: string, part: string)
    ensures Contains(s, part) <==> exists a, b :: s == a + part + b
  {
    if i :| 0 <= i <= |s| && part <= s[i..] {
      assert s == s[..i] + part + s[i..][|part|..];
    }
    if a, b :| s == a + part + b {
      assert s[|a|..] == part + b;
      assert part <= s[|a|..];
    }
  }

  lemma {:induction false} PartialFinds(ps: seq<Project>, ref: string, lower: string -> string)
    ensures forall p :: p in Partial(ps, ref, lower) <==> p in ps && Contains(lower(p.name), lower(ref))
  {
    hide Contains;
    if ps != [] {
      PartialFinds(ps[..|ps| - 1], ref, lower);
      assert forall p :: p in ps <==> p in ps[..|ps| - 1] || p == ps[|ps| - 1];
    }
  }

  /** The project of that id alone; else all of that name; else all whose name contains it, case ignored; else 404. */
  lemma ResolveMeans(ps: seq<Project>, ref: string, lower: string -> string)
    ensures var byId := exists p :: p in ps && p.id == ref;
            var byName := exists p :: p in ps && p.name == ref;
            var r := Resolve(ps, ref, lower);
            && (byId ==> r.Ok? && |r.value| == 1 && r.value[0] in ps && r.value[0].id == ref)
            && (!byId && byName ==> r.Ok? && forall p :: p in r.value <==> p in ps && p.name == ref)
            && (!byId && !byName && r.Ok? ==>
                  r.value != [] && forall p :: p in r.value <==> p in ps && Contains(lower(p.name), lower(ref)))
            && (r.Err? <==> !byId && !byName && forall p :: p in ps ==> !Contains(lower(p.name), lower(ref)))
            && (r.Err? ==> r.error == 404)
  {
    hide Contains;
    WithIdFinds(ps, ref);
    NamedFinds(ps, ref);
    PartialFinds(ps, ref, lower);
    if p :| p in ps && p.id == ref {
      var i :| 0 <= i < |ps| && ps[i] == p;
    }
    if p :| p in ps && p.name == ref {
      assert p in Named(ps, ref);
    }
    if Named(ps, ref) != [] {
      assert Named(ps, ref)[0] in Named(ps, ref);
    }
    if Partial(ps, ref, lower) != [] {
      assert Partial(ps, ref, lower)[0] in Partial(ps, ref, lower);
    }
  }

  /** A name of one registered project and no more. */
  ghost predicate Unique(ps: seq<Project>, name: string, id: string) {
    exists i :: 0 <= i < |ps| && ps[i] == Project(id, name)
                && forall j :: 0 <= j < |ps| && ps[j].name == name ==> j == i
  }

  lemma {:induction false} NamedUnique(ps: seq<Project>, name: string)
    ensures |Named(ps, name)| == 1 ==> Unique(ps, name, Named(ps, name)[0].id)
    ensures Named(ps, name) == [] <==> forall j :: 0 <= j < |ps| ==> ps[j].name != name
    ensures |Named(ps, name)| > 1 <==> exists i, j :: 0 <= i < j < |ps| && ps[i].name == name && ps[j].name == name
  {
    if ps != [] {
      var n := |ps| - 1;
      var before := ps[..n];
      NamedUnique(before, name);
      assert forall j :: 0 <= j < n ==> before[j] == ps[j];
      if |Named(before, name)| > 1 {
        var i, j :| 0 <= i < j < n && before[i].name == name && before[j].name == name;
        assert ps[i].name == name && ps[j].name == name;
      } else if |Named(before, name)| == 1 {
        var i :| 0 <= i < n && before[i].name == name && forall j :: 0 <= j < n && before[j].name == name ==> j == i;
        assert ps[i].name == name;
      }
    }
  }

  /** What the apply resolver makes of any list of names: which are missing, which resolve, and when it refuses. */
  lemma {:induction false} ResolveAllMeans(ps: seq<Project>, names: seq<string>)
    ensures ResolveAll(ps, names).Err? <==>
            exists k :: 0 <= k < |names| && !Blank(names[k]) && |Named(ps, names[k])| > 1
    ensures ResolveAll(ps, names).Err? ==> ResolveAll(ps, names).error == 409
    ensures ResolveAll(ps, names).Ok? ==>
              var r := ResolveAll(ps, names).value;
              && (forall name :: name in r.missing <==> name in names && (Blank(name) || Named(ps, name) == []))
              && (forall name :: name in r.ids <==> name in names && !Blank(name) && Named(ps, name) != [])
              && (forall name :: name in r.ids ==> |Named(ps, name)| == 1 && r.ids[name] == Named(ps, name)[0].id)
  {
    hide Blank, Named;
    if names != [] {
      var n := |names| - 1;
      ResolveAllMeans(ps, names[..n]);
      assert names == names[..n] + [names[n]];
      if ResolveAll(ps, names[..n]).Err? {
        var k :| 0 <= k < n && !Blank(names[..n][k]) && |Named(ps, names[..n][k])| > 1;
        assert names[..n][k] == names[k];
      } else {
        forall k | 0 <= k < n ensures Blank(names[k]) || |Named(ps, names[k])| <= 1 {
          assert names[..n][k] == names[k];
        }
      }
    }
  }

  /** An apply is refused while some project has no name; otherwise its names are resolved. */
  lemma ResolveForApplyMeans(ps: seq<Project>, names: seq<string>)
    ensures (exists i :: 0 <= i < |ps| && ps[i].name == "") ==> ResolveForApply(ps, names) == Err(409)
    ensures (forall i :: 0 <= i < |ps| ==> ps[i].name != "") ==> ResolveForApply(ps, names) == ResolveAll(ps, names)
  {
  }

  /** The two collisions that keep a name from being exported, told on the list of projects. */
  lemma CollisionsIff(ps: seq<Project>, name: string)
    requires DistinctIds(ps)
    ensures Duplicate(ps, name) <==>
            name != "" && exists i, j :: 0 <= i < j < |ps| && ps[i].name == name && ps[j].name == name
    ensures CollidesWithId(ps, name) <==>
            name != "" && exists i, j :: 0 <= i < |ps| && 0 <= j < |ps| && i != j
                                         && ps[i].name == name && ps[j].id == name
  {
    NamedUnique(ps, name);
    NamedFinds(ps, name);
    WithIdFinds(ps, name);
    if CollidesWithId(ps, name) {
      var j :| 0 <= j < |ps| && ps[j] == WithId(ps, name).value;
      if |Named(ps, name)| == 1 {
        var i :| 0 <= i < |ps| && ps[i] == Named(ps, name)[0];
        assert i != j;
      } else {
        var i, k :| 0 <= i < k < |ps| && ps[i].name == name && ps[k].name == name;
        assert i != j || k != j;
      }
    }
    if i, j :| 0 <= i < |ps| && 0 <= j < |ps| && i != j && ps[i].name == name && ps[j].id == name {
      assert WithId(ps, name) == Some(ps[j]) by {
        IdOf(ps, ps[j]);
      }
      assert ps[i] in Named(ps, name);
      assert ps[i].id != ps[j].id;
    }
  }

  /** Why a project is not exported. */
  lemma ExportRefusals(ps: seq<Project>, id: string)
    ensures ExportName(ps, id) == Err(500) <==> forall i :: 0 <= i < |ps| ==> ps[i].id != id
    ensures ExportName(ps, id).Err? ==> ExportName(ps, id).error in {409, 500}
  {
    hide Blank;
    WithIdFinds(ps, id);
    if WithId(ps, id).Some? {
      var i :| 0 <= i < |ps| && ps[i] == WithId(ps, id).value;
    }
  }

  // ---------- the loops ----------

  method ResolveProjectRef(ps: seq<Project>, ref: string, lower: string -> string)
    returns (r: Result<seq<Project>, nat>)
    ensures r == Resolve(ps, ref, lower)
  {
    for i := 0 to |ps|
      invariant WithId(ps, ref) == WithId(ps[i..], ref)
    {
      if ps[i].id == ref {
        return Ok([ps[i]]);
      }
      assert ps[i..][1..] == ps[i + 1..];
    }
    var exact := ResolveProjectByNameExact(ps, ref);
    if |exact| > 0 {
      return Ok(exact);
    }
    var part := [];
    for i := 0 to |ps|
      invariant part == Partial(ps[..i], ref, lower)
    {
      assert ps[..i + 1][..i] == ps[..i];
      if Contains(lower(ps[i].name), lower(ref)) {
        part := part + [ps[i]];
      }
    }
    assert ps[..|ps|] == ps;
    if |part| > 0 {
      return Ok(part);
    }
    return Err(404);
  }

  method ResolveProjectByNameExact(ps: seq<Project>, name: string) returns (matches: seq<Project>)
    ensures matches == Named(ps, name)
  {
    matches := [];
    for i := 0 to |ps|
      invariant matches == Named(ps[..i], name)
    {
      assert ps[..i + 1][..i] == ps[..i];
      if ps[i].name == name {
        matches := matches + [ps[i]];
      }
    }
    assert ps[..|ps|] == ps;
  }

  /** The exporter's three tables: names held twice, names that are another's id, and each id's name. */
  method ProjectCollisions(ps: seq<Project>)
    returns (byName: map<string, seq<string>>, otherId: map<string, string>, effective: map<string, string>)
    requires DistinctIds(ps)
    ensures forall name :: name in byName <==> Duplicate(ps, name)
    ensures forall name :: name in otherId <==> CollidesWithId(ps, name)
    ensures forall i :: 0 <= i < |ps| ==> ps[i].id in effective && effective[ps[i].id] == ps[i].name
  {
    hide Named, DistinctIds;
    effective := map[];
    var ids: map<string, seq<string>> := map[];
    assert ps[..0] == [];
    TableEmpty();
    for i := 0 to |ps|
      invariant forall k :: 0 <= k < i ==> ps[k].id in effective && effective[ps[k].id] == ps[k].name
      invariant Table(ps[..i], ids)
    {
      var p := ps[i];
      assert forall k :: 0 <= k < i ==> ps[k].id != p.id by { EarlierIds(ps, i); }
      effective := effective[p.id := p.name];
      assert ps[..i + 1] == ps[..i] + [p];
      TableSnoc(ps[..i], ids, p);
      if p.name != "" {
        ids := ids[p.name := (if p.name in ids then ids[p.name] else []) + [p.id]];
      }
    }
    assert ps[..|ps|] == ps;
    byName := map name | name in ids && |ids[name]| > 1 :: ids[name];
    otherId := map name | name in ids && WithId(ps, name).Some?
                          && !(|ids[name]| == 1 && ids[name][0] == WithId(ps, name).value.id)
                     :: WithId(ps, name).value.id;
  }

  /** The ids that carry each non-empty name. */
  ghost predicate Table(ps: seq<Project>, ids: map<string, seq<string>>) {
    && (forall name :: name in ids <==> name != "" && Named(ps, name) != [])
    && (forall name :: name in ids ==> ids[name] == IdsOf(Named(ps, name)))
  }

  lemma TableEmpty()
    ensures Table([], map[])
  {
  }

  lemma EarlierIds(ps: seq<Project>, i: nat)
    requires DistinctIds(ps) && i < |ps|
    ensures forall k :: 0 <= k < i ==> ps[k].id != ps[i].id
  {
  }

  lemma TableSnoc(ps: seq<Project>, ids: map<string, seq<string>>, p: Project)
    requires Table(ps, ids)
    ensures var held := if p.name in ids then ids[p.name] else [];
            Table(ps + [p], if p.name == "" then ids else ids[p.name := held + [p.id]])
  {
    assert (ps + [p])[..|ps|] == ps;
    IdsOfConcat(Named(ps, p.name), [p]);
  }

  function IdsOf(ps: seq<Project>): seq<string> {
    seq(|ps|, i requires 0 <= i < |ps| => ps[i].id)
  }

  lemma IdsOfConcat(a: seq<Project>, b: seq<Project>)
    ensures IdsOf(a + b) == IdsOf(a) + IdsOf(b)
  {
  }

  /** ExportWorkspaceEnvelopes for one workspace's assigned ids. */
  method ExportProjects(ps: seq<Project>, ids: seq<string>) returns (r: Result<seq<string>, nat>)
    requires DistinctIds(ps)
    ensures r == ExportAll(ps, ids)
  {
    hide Blank;
    var byName, otherId, effective := ProjectCollisions(ps);
    var names: seq<string> := [];
    for i := 0 to |ids|
      invariant ExportAll(ps, ids[..i]) == Ok(names)
    {
      assert ids[..i + 1][..i] == ids[..i];
      WithIdFinds(ps, ids[i]);
      var p := WithId(ps, ids[i]);
      if p.None? {
        ExportStops(ps, ids, i);
        return Err(500);
      }
      var name := effective[ids[i]];
      if Blank(name) || name in byName || name in otherId {
        ExportStops(ps, ids, i);
        return Err(409);
      }
      names := names + [name];
    }
    assert ids[..|ids|] == ids;
    return Ok(names);
  }

  lemma {:induction false} ExportStops(ps: seq<Project>, ids: seq<string>, i: nat)
    requires i < |ids| && ExportAll(ps, ids[..i]).Ok? && ExportName(ps, ids[i]).Err?
    ensures ExportAll(ps, ids) == Err(ExportName(ps, ids[i]).error)
  {
    if i < |ids| - 1 {
      var before := ids[..|ids| - 1];
      assert before[..i] == ids[..i] && before[i] == ids[i];
      ExportStops(ps, before, i);
    }
  }

  method ResolveWorkspaceApplyProjectNames(ps: seq<Project>, names: seq<string>) returns (r: Result<Resolved, nat>)
    ensures r == ResolveForApply(ps, names)
  {
    hide Blank;
    for i := 0 to |ps|
      invariant forall k :: 0 <= k < i ==> ps[k].name != ""
    {
      if ps[i].name == "" {
        return Err(409);
      }
    }
    var out := Resolved(map[], []);
    for i := 0 to |names|
      invariant ResolveAll(ps, names[..i]) == Ok(out)
    {
      assert names[..i + 1][..i] == names[..i];
      var name := names[i];
      if Blank(name) {
        out := out.(missing := out.missing + [name]);
        continue;
      }
      var matches := ResolveProjectByNameExact(ps, name);
      if |matches| == 0 {
        out := out.(missing := out.missing + [name]);
        continue;
      }
      if |matches| > 1 {
        ResolveStops(ps, names, i);
        return Err(409);
      }
      out := out.(ids := out.ids[name := matches[0].id]);
    }
    assert names[..|names|] == names;
    return Ok(out);
  }

  lemma {:induction false} ResolveStops(ps: seq<Project>, names: seq<string>, i: nat)
    requires i < |names| && ResolveAll(ps, names[..i]).Ok? && !Blank(names[i]) && |Named(ps, names[i])| > 1
    ensures ResolveAll(ps, names) == Err(409)
  {
    hide Blank;
    if i < |names| - 1 {
      var before := names[..|names| - 1];
      assert before[..i] == names[..i] && before[i] == names[i];
      ResolveStops(ps, before, i);
    }
  }
}
