/**
 * The desired state: projects and the internal team, flattened out of the
 * already-loaded configuration document.
 *
 * The document is the mapping the YAML loader returns. A mapping is modelled
 * as the sequence of its (key, value) items in document order, and each
 * value the flattening looks up is a `Field`: absent, null, or present.
 * A loaded mapping keeps one value per key, so the keys of the `projects`
 * and `internal_team` item sequences are taken to be distinct.
 */
module Config {
  import opened Identity

  /** One project: the repositories it owns and their maintainers. */
  datatype Project = Project(repos: seq<string>, maintainers: seq<Login>)

  /** A looked-up mapping entry: key absent, value null, or a value. */
  datatype Field<T> = Missing | Null | Present(value: T)

  /** A `projects` entry as loaded: `{repos: [...], maintainers: [...] | null}`. */
  datatype ProjectMeta = ProjectMeta(repos: Field<seq<string>>, maintainers: Field<seq<Login>>)

  /** An `internal_team` entry's value: a list of users, or null. */
  datatype Members = NullMembers | Members(users: seq<Login>)

  /** The loaded document: the `projects` and `internal_team` mappings. */
  datatype Document = Document(
    projects: Field<seq<(string, ProjectMeta)>>,
    internalTeam: Field<seq<(string, Members)>>)

  /**
   * Why flattening fails: a key that is looked up and absent (a `KeyError`),
   * or a null where a mapping or list is iterated (a `TypeError`/`AttributeError`).
   */
  datatype ConfigError = MissingKey(key: string) | NullValue(key: string)

  datatype Result<T> = Ok(value: T) | Err(error: ConfigError)

  /** The three results of flattening: projects, internal team, all maintainers. */
  datatype Flattened = Flattened(projects: seq<Project>, internalTeam: seq<Login>, maintainers: set<Login>)

  /** The `Project` one entry yields: repositories as listed, maintainers lowercased, null as empty. */
  function ProjectOf(meta: ProjectMeta): (r: Result<Project>) {
    match meta.repos
    case Missing => Err(MissingKey("repos"))
    case Null => Err(NullValue("repos"))
    case Present(repos) =>
      match meta.maintainers
      case Missing => Err(MissingKey("maintainers"))
      case Null => Ok(Project(repos, []))
      case Present(maintainers) => Ok(Project(repos, LowerEach(maintainers)))
  }

  /** The projects of the entries in order, or the error of the first entry that fails. */
  function FlattenProjects(entries: seq<(string, ProjectMeta)>): (r: Result<seq<Project>>) {
    if entries == [] then Ok([])
    else
      match FlattenProjects(entries[..|entries| - 1])
      case Err(e) => Err(e)
      case Ok(projects) =>
        match ProjectOf(entries[|entries| - 1].1)
        case Err(e) => Err(e)
        case Ok(p) => Ok(projects + [p])
  }

  /** The lowercased members of all teams in order, or the error of the first null team. */
  function FlattenTeam(teams: seq<(string, Members)>): (r: Result<seq<Login>>) {
    if teams == [] then Ok([])
    else
      match FlattenTeam(teams[..|teams| - 1])
      case Err(e) => Err(e)
      case Ok(team) =>
        match teams[|teams| - 1].1
        case NullMembers => Err(NullValue(teams[|teams| - 1].0))
        case Members(users) => Ok(team + LowerEach(users))
  }

  /** The union of the projects' maintainer lists. */
  function MaintainerUnion(projects: seq<Project>): (r: set<Login>) {
    if projects == [] then {}
    else MaintainerUnion(projects[..|projects| - 1]) + Elements(projects[|projects| - 1].maintainers)
  }

  /** The whole flattening: `projects` first, then `internal_team`. */
  function Flatten(doc: Document): (r: Result<Flattened>) {
    match doc.projects
    case Missing => Err(MissingKey("projects"))
    case Null => Err(NullValue("projects"))
    case Present(entries) =>
      match FlattenProjects(entries)
      case Err(e) => Err(e)
      case Ok(projects) =>
        match doc.internalTeam
        case Missing => Err(MissingKey("internal_team"))
        case Null => Err(NullValue("internal_team"))
        case Present(teams) =>
          match FlattenTeam(teams)
          case Err(e) => Err(e)
          case Ok(team) => Ok(Flattened(projects, team, MaintainerUnion(projects)))
  }

  /** A document every lookup of the flattening succeeds on. */
  predicate WellFormedProject(meta: ProjectMeta) {
    meta.repos.Present? && !meta.maintainers.Missing?
  }

  predicate WellFormed(doc: Document) {
    && doc.projects.Present?
    && (forall i :: 0 <= i < |doc.projects.value| ==> WellFormedProject(doc.projects.value[i].1))
    && doc.internalTeam.Present?
    && (forall i :: 0 <= i < |doc.internalTeam.value| ==> doc.internalTeam.value[i].1.Members?)
  }

  /** Copies the listed repositories one by one, as the source's append loop does. */
  method CopyRepos(source: seq<string>) returns (repos: seq<string>)
    ensures repos == source
  {
    repos := [];
    var j := 0;
    while j < |source|
      invariant 0 <= j <= |source|
      invariant repos == source[..j]
    {
      repos := repos + [source[j]];
      j := j + 1;
    }
  }

  /** Appends the lowercased form of each user, in order. */
  method LowerUsers(source: seq<Login>) returns (users: seq<Login>)
    ensures |users| == |source|
    ensures forall k :: 0 <= k < |users| ==> users[k] == Lower(source[k])
  {
    users := [];
    var k := 0;
    while k < |source|
      invariant 0 <= k <= |source|
      invariant |users| == k
      invariant forall q :: 0 <= q < k ==> users[q] == Lower(source[q])
    {
      users := users + [Lower(source[k])];
      k := k + 1;
    }
  }

  /** Builds the `Project` of one `projects` entry. */
  method ParseProject(meta: ProjectMeta) returns (res: Result<Project>)
    ensures res == ProjectOf(meta)
  {
    if meta.repos.Missing? {
      return Err(MissingKey("repos"));
    }
    if meta.repos.Null? {
      return Err(NullValue("repos"));
    }
    var repos := CopyRepos(meta.repos.value);
    if meta.maintainers.Missing? {
      return Err(MissingKey("maintainers"));
    }
    var maintainers: seq<Login> := [];
    if meta.maintainers.Present? {
      maintainers := LowerUsers(meta.maintainers.value);
      assert maintainers == LowerEach(meta.maintainers.value);
    }
    return Ok(Project(repos, maintainers));
  }

  /**
   * The imperative flattening: builds `repos`, `maintainers`,
   * `project_maintainers`, `projects` and `internal_team` by appending in
   * nested loops, and stops at the first failing lookup.
   */
  method ParseAndFlatten(doc: Document) returns (res: Result<Flattened>)
    ensures res == Flatten(doc)
  {
    if doc.projects.Missing? {
      return Err(MissingKey("projects"));
    }
    if doc.projects.Null? {
      return Err(NullValue("projects"));
    }
    var entries := doc.projects.value;
    var projects: seq<Project> := [];
    var projectMaintainers: seq<Login> := [];
    var i := 0;
    while i < |entries|
      invariant 0 <= i <= |entries|
      invariant FlattenProjects(entries[..i]) == Ok(projects)
      invariant Elements(projectMaintainers) == MaintainerUnion(projects)
    {
      assert entries[..i + 1][..i] == entries[..i];
      var project := ParseProject(entries[i].1);
      if project.Err? {
        FlattenProjectsPrefixErr(entries, i + 1);
        return Err(project.error);
      }
      var p := project.value;
      ElementsAppend(projectMaintainers, p.maintainers);
      projectMaintainers := projectMaintainers + p.maintainers;
      assert (projects + [p])[..|projects|] == projects;
      projects := projects + [p];
      i := i + 1;
    }
    assert entries[..i] == entries;
    if doc.internalTeam.Missing? {
      return Err(MissingKey("internal_team"));
    }
    if doc.internalTeam.Null? {
      return Err(NullValue("internal_team"));
    }
    var teams := doc.internalTeam.value;
    var internalTeam: seq<Login> := [];
    var t := 0;
    while t < |teams|
      invariant 0 <= t <= |teams|
      invariant FlattenTeam(teams[..t]) == Ok(internalTeam)
    {
      assert teams[..t + 1][..t] == teams[..t];
      if teams[t].1.NullMembers? {
        FlattenTeamPrefixErr(teams, t + 1);
        return Err(NullValue(teams[t].0));
      }
      var lowered := LowerUsers(teams[t].1.users);
      assert lowered == LowerEach(teams[t].1.users);
      internalTeam := internalTeam + lowered;
      t := t + 1;
    }
    assert teams[..t] == teams;
    return Ok(Flattened(projects, internalTeam, Elements(projectMaintainers)));
  }

  /** Once a prefix of the entries fails, the whole sequence fails with the same error. */
  lemma {:induction false} FlattenProjectsPrefixErr(entries: seq<(string, ProjectMeta)>, n: nat)
    requires n <= |entries|
    requires FlattenProjects(entries[..n]).Err?
    ensures FlattenProjects(entries) == FlattenProjects(entries[..n])
  {
    if n < |entries| {
      var last := |entries| - 1;
      assert entries[..last][..n] == entries[..n];
      FlattenProjectsPrefixErr(entries[..last], n);
    } else {
      assert entries[..n] == entries;
    }
  }

  lemma {:induction false} FlattenTeamPrefixErr(teams: seq<(string, Members)>, n: nat)
    requires n <= |teams|
    requires FlattenTeam(teams[..n]).Err?
    ensures FlattenTeam(teams) == FlattenTeam(teams[..n])
  {
    if n < |teams| {
      var last := |teams| - 1;
      assert teams[..last][..n] == teams[..n];
      FlattenTeamPrefixErr(teams[..last], n);
    } else {
      assert teams[..n] == teams;
    }
  }

  /** A project keeps its repositories as listed and lowercases each maintainer; null means none. */
  lemma ProjectOfShape(meta: ProjectMeta)
    ensures ProjectOf(meta).Ok? <==> WellFormedProject(meta)
    ensures ProjectOf(meta).Ok? ==> ProjectOf(meta).value.repos == meta.repos.value
    ensures meta.repos.Present? && meta.maintainers.Null? ==> ProjectOf(meta) == Ok(Project(meta.repos.value, []))
    ensures ProjectOf(meta).Ok? && meta.maintainers.Present? ==>
      var p := ProjectOf(meta).value;
      && |p.maintainers| == |meta.maintainers.value|
      && forall k :: 0 <= k < |p.maintainers| ==> p.maintainers[k] == Lower(meta.maintainers.value[k])
    ensures ProjectOf(meta).Ok? ==> AllLowerSeq(ProjectOf(meta).value.maintainers)
  {
    if meta.maintainers.Present? {
      LowerEachIsLower(meta.maintainers.value);
    }
  }

  /** One project per entry, in order, each the project of its entry. */
  lemma {:induction false} FlattenProjectsShape(entries: seq<(string, ProjectMeta)>)
    ensures FlattenProjects(entries).Ok? <==> forall i :: 0 <= i < |entries| ==> WellFormedProject(entries[i].1)
    ensures FlattenProjects(entries).Ok? ==>
      && |FlattenProjects(entries).value| == |entries|
      && forall i :: 0 <= i < |entries| ==> ProjectOf(entries[i].1) == Ok(FlattenProjects(entries).value[i])
  {
    if entries != [] {
      var last := |entries| - 1;
      var init := entries[..last];
      FlattenProjectsShape(init);
      ProjectOfShape(entries[last].1);
      assert forall i :: 0 <= i < last ==> init[i] == entries[i];
    }
  }

  /** The internal team lists exactly the lowercased users of all teams, and nothing else. */
  lemma {:induction false} FlattenTeamShape(teams: seq<(string, Members)>)
    ensures FlattenTeam(teams).Ok? <==> forall i :: 0 <= i < |teams| ==> teams[i].1.Members?
    ensures FlattenTeam(teams).Ok? ==>
      && AllLowerSeq(FlattenTeam(teams).value)
      && forall x :: x in FlattenTeam(teams).value <==>
           exists i, k :: 0 <= i < |teams| && 0 <= k < |teams[i].1.users| && x == Lower(teams[i].1.users[k])
  {
    if teams != [] {
      var last := |teams| - 1;
      var init := teams[..last];
      FlattenTeamShape(init);
      assert forall i :: 0 <= i < last ==> init[i] == teams[i];
      if FlattenTeam(teams).Ok? {
        var users := teams[last].1.users;
        var team := FlattenTeam(init).value;
        LowerEachIsLower(users);
        assert FlattenTeam(teams).value == team + LowerEach(users);
        forall x
          ensures x in FlattenTeam(teams).value <==>
            exists i, k :: 0 <= i < |teams| && 0 <= k < |teams[i].1.users| && x == Lower(teams[i].1.users[k])
        {
          if x in FlattenTeam(teams).value {
            if x in team {
              var i, k :| 0 <= i < |init| && 0 <= k < |init[i].1.users| && x == Lower(init[i].1.users[k]);
              assert init[i] == teams[i];
            } else {
              var k :| 0 <= k < |users| && LowerEach(users)[k] == x;
              assert x == Lower(teams[last].1.users[k]);
            }
          }
          if exists i, k :: 0 <= i < |teams| && 0 <= k < |teams[i].1.users| && x == Lower(teams[i].1.users[k]) {
            var i, k :| 0 <= i < |teams| && 0 <= k < |teams[i].1.users| && x == Lower(teams[i].1.users[k]);
            if i < last {
              assert init[i] == teams[i];
            } else {
              assert LowerEach(users)[k] == x;
            }
          }
        }
      }
    }
  }

  /** The maintainer union holds exactly the users some project lists as maintainer. */
  lemma {:induction false} MaintainerUnionSound(projects: seq<Project>, x: Login)
    ensures x in MaintainerUnion(projects) <==> exists i :: 0 <= i < |projects| && x in projects[i].maintainers
  {
    if projects != [] {
      var last := |projects| - 1;
      MaintainerUnionSound(projects[..last], x);
      if exists i :: 0 <= i < |projects| && x in projects[i].maintainers {
        var i :| 0 <= i < |projects| && x in projects[i].maintainers;
        if i < last {
          assert projects[..last][i] == projects[i];
        }
      }
    }
  }

  /** Flattening succeeds exactly on well-formed documents. */
  lemma FlattenOkIff(doc: Document)
    ensures Flatten(doc).Ok? <==> WellFormed(doc)
  {
    if doc.projects.Present? {
      FlattenProjectsShape(doc.projects.value);
    }
    if doc.internalTeam.Present? {
      FlattenTeamShape(doc.internalTeam.value);
    }
  }

  /**
   * What a successful flattening produces: one project per entry in order,
   * every identifier lowercased, and the third result the union of all
   * projects' maintainer lists.
   */
  lemma FlattenResult(doc: Document)
    requires Flatten(doc).Ok?
    ensures var f := Flatten(doc).value;
      && |f.projects| == |doc.projects.value|
      && (forall i :: 0 <= i < |f.projects| ==> ProjectOf(doc.projects.value[i].1) == Ok(f.projects[i]))
      && (forall i :: 0 <= i < |f.projects| ==> AllLowerSeq(f.projects[i].maintainers))
      && AllLowerSeq(f.internalTeam)
      && AllLower(f.maintainers)
      && (forall x :: x in f.maintainers <==> exists i :: 0 <= i < |f.projects| && x in f.projects[i].maintainers)
  {
    var f := Flatten(doc).value;
    FlattenProjectsShape(doc.projects.value);
    FlattenTeamShape(doc.internalTeam.value);
    forall i | 0 <= i < |f.projects| ensures AllLowerSeq(f.projects[i].maintainers) {
      ProjectOfShape(doc.projects.value[i].1);
    }
    forall x ensures x in f.maintainers <==> exists i :: 0 <= i < |f.projects| && x in f.projects[i].maintainers {
      MaintainerUnionSound(f.projects, x);
    }
    forall x | x in f.maintainers ensures IsLower(x) {
      MaintainerUnionSound(f.projects, x);
      var i :| 0 <= i < |f.projects| && x in f.projects[i].maintainers;
      var k :| 0 <= k < |f.projects[i].maintainers| && f.projects[i].maintainers[k] == x;
    }
  }
}
