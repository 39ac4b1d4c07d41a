/**
 * The reconciler against the hosting service.
 *
 * The host is abstract state: for every repository of the organisation the
 * set of collaborator logins it reports, the set of organisation member
 * logins, and the login the client is authenticated as. Every mutating call
 * the reconciler makes is appended to an action log and applied to that
 * state as if the host granted it at once: a created repository has no
 * collaborators, an added collaborator or an invited member is one from then
 * on, and a removal drops every login that matches case-insensitively.
 */
module Sync {
  import opened Identity
  import opened Reconcile
  import opened Config

  /** The organisation the client works on. */
  const Organization: string := "SDC-MUJ"

  /** The permission every added collaborator is granted. */
  const CollaboratorPermission: string := "maintain"

  /** The role every invited organisation member is given. */
  const MemberRole: string := "direct_member"

  /** One mutating call to the host. */
  datatype Action =
    | Create(repo: string, isPrivate: bool)
    | Add(repo: string, user: Login, permission: string)
    | Remove(repo: string, user: Login)
    | Invite(user: Login, role: string)

  /** Repository name to the collaborator logins the host reports for it. */
  type Repos = map<string, set<Login>>

  /** No login occurs twice in `s`. */
  ghost predicate Distinct(s: seq<Login>) {
    forall i, j :: 0 <= i < j < |s| ==> s[i] != s[j]
  }

  /** `s` lists every element of `xs` exactly once, in some order. */
  ghost predicate Lists(s: seq<Login>, xs: set<Login>) {
    Distinct(s) && forall x :: x in s <==> x in xs
  }

  /**
   * Iterating over a set: its elements one by one, in an order the model
   * leaves unspecified, as Python's set iteration is.
   */
  method Enumerate(xs: set<Login>) returns (s: seq<Login>)
    ensures Lists(s, xs)
  {
    s := [];
    var rest := xs;
    ghost var done: set<Login> := {};
    while rest != {}
      invariant done !! rest && done + rest == xs
      invariant Lists(s, done)
      decreases rest
    {
      var u :| u in rest;
      ListsAppend(s, done, u);
      s := s + [u];
      rest := rest - {u};
      done := done + {u};
    }
  }

  function Adds(repo: string, users: seq<Login>): (r: seq<Action>) {
    seq(|users|, i requires 0 <= i < |users| => Add(repo, users[i], CollaboratorPermission))
  }

  function Removes(repo: string, users: seq<Login>): (r: seq<Action>) {
    seq(|users|, i requires 0 <= i < |users| => Remove(repo, users[i]))
  }

  function Invites(users: seq<Login>): (r: seq<Action>) {
    seq(|users|, i requires 0 <= i < |users| => Invite(users[i], MemberRole))
  }

  /** The lowercased collaborators of `name`; a repository that does not exist yet has none. */
  function Snapshot(repos: Repos, name: string): (r: set<Login>) {
    LowerSet(if name in repos then repos[name] else {})
  }

  /** The logins of `xs` that a case-insensitive removal of `users` drops. */
  function MatchingLogins(xs: set<Login>, users: set<Login>): (r: set<Login>) {
    set u | u in xs && Lower(u) in users
  }

  /** The host state after reconciling one repository against maintainers `m` and team `t`. */
  function ReconcileRepo(repos: Repos, name: string, m: set<Login>, t: set<Login>): (r: Repos) {
    var raw := if name in repos then repos[name] else {};
    var c := LowerSet(raw);
    var granted := raw + Additions(m, c, t);
    repos[name := granted - MatchingLogins(granted, Removals(m, c, t))]
  }

  /** The host state after reconciling the repositories in order. */
  function ReconcileRepos(repos: Repos, names: seq<string>, m: set<Login>, t: set<Login>): (r: Repos) {
    if names == [] then repos
    else ReconcileRepo(ReconcileRepos(repos, names[..|names| - 1], m, t), names[|names| - 1], m, t)
  }

  /** The host state after reconciling every project in order. */
  function ReconcileProjects(repos: Repos, projects: seq<Project>, t: set<Login>): (r: Repos) {
    if projects == [] then repos
    else
      var p := projects[|projects| - 1];
      ReconcileRepos(ReconcileProjects(repos, projects[..|projects| - 1], t), p.repos, Elements(p.maintainers), t)
  }

  /** The calls reconciling repository `name` from host state `repos` makes, as a set. */
  function RepoActions(repos: Repos, name: string, m: set<Login>, t: set<Login>): (r: set<Action>) {
    var c := Snapshot(repos, name);
    (if name in repos then {} else {Create(name, true)})
    + (set u | u in Additions(m, c, t) :: Add(name, u, CollaboratorPermission))
    + (set u | u in Removals(m, c, t) :: Remove(name, u))
  }

  /** The calls reconciling the repositories `names` in order makes, as a set. */
  function ProjectActions(repos: Repos, names: seq<string>, m: set<Login>, t: set<Login>): (r: set<Action>) {
    if names == [] then {}
    else
      var init := names[..|names| - 1];
      ProjectActions(repos, init, m, t) + RepoActions(ReconcileRepos(repos, init, m, t), names[|names| - 1], m, t)
  }

  /** The calls reconciling every project in order makes, as a set. */
  function RunActions(repos: Repos, projects: seq<Project>, t: set<Login>): (r: set<Action>) {
    if projects == [] then {}
    else
      var init := projects[..|projects| - 1];
      var p := projects[|projects| - 1];
      RunActions(repos, init, t) + ProjectActions(ReconcileProjects(repos, init, t), p.repos, Elements(p.maintainers), t)
  }

  /** Every repository name some project lists. */
  function RepoNames(projects: seq<Project>): (r: set<string>) {
    if projects == [] then {}
    else RepoNames(projects[..|projects| - 1]) + Elements(projects[|projects| - 1].repos)
  }

  /** The calls a log holds, regardless of order and repetition. */
  function Performed(log: seq<Action>): (r: set<Action>) {
    set a | a in log
  }

  /** Repository `name` exists and planning it again yields nothing to do. */
  predicate Converged(repos: Repos, name: string, m: set<Login>, t: set<Login>) {
    && name in repos
    && Additions(m, Snapshot(repos, name), t) == {}
    && Removals(m, Snapshot(repos, name), t) == {}
  }

  /** What reconciling the repositories `names` may log: a private creation, a grant or a revocation. */
  predicate ProjectAction(a: Action, names: seq<string>, m: set<Login>, t: set<Login>) {
    match a
    case Create(r, isPrivate) => r in names && isPrivate
    case Add(r, u, permission) => r in names && u in m && u !in t && permission == CollaboratorPermission
    case Remove(r, u) => r in names && u !in m && u !in t
    case Invite(_, _) => false
  }

  lemma ListsAppend(s: seq<Login>, xs: set<Login>, u: Login)
    requires Lists(s, xs) && u !in xs
    ensures Lists(s + [u], xs + {u})
  {
  }

  lemma ListsHead(s: seq<Login>, xs: set<Login>)
    requires Lists(s, xs) && s != []
    ensures s[0] in xs
  {
    assert s[0] in s;
  }

  lemma AddsAppend(repo: string, users: seq<Login>, u: Login)
    ensures Adds(repo, users + [u]) == Adds(repo, users) + [Add(repo, u, CollaboratorPermission)]
  {
  }

  lemma RemovesAppend(repo: string, users: seq<Login>, u: Login)
    ensures Removes(repo, users + [u]) == Removes(repo, users) + [Remove(repo, u)]
  {
  }

  lemma InvitesAppend(users: seq<Login>, u: Login)
    ensures Invites(users + [u]) == Invites(users) + [Invite(u, MemberRole)]
  {
  }

  lemma AppendAssoc(a: seq<Action>, b: seq<Action>, c: seq<Action>)
    ensures (a + b) + c == a + (b + c)
  {
  }

  /** Removing users one at a time drops the same logins as removing them all. */
  lemma MatchingStep(xs: set<Login>, d: set<Login>, u: Login)
    ensures var rest := xs - MatchingLogins(xs, d);
      rest - MatchingLogins(rest, {u}) == xs - MatchingLogins(xs, d + {u})
  {
  }

  /** After the invited maintainers join, the organisation plan is empty. */
  lemma OrgConvergedAfterInvites(maintainers: set<Login>, members: set<Login>, self: Login)
    requires AllLower(maintainers)
    ensures var invites := OrgInvites(maintainers, LowerSet(members), self);
      OrgInvites(maintainers, LowerSet(members + invites), self) == {}
  {
    var invites := OrgInvites(maintainers, LowerSet(members), self);
    LowerSetUnion(members, invites);
    LowerSetOfLower(invites);
    OrgInvitesConverge(maintainers, LowerSet(members), self);
  }

  /** The calls that reconciling one repository logs, in order. */
  function RepoLog(name: string, created: bool, added: seq<Login>, removed: seq<Login>): (r: seq<Action>) {
    (if created then [Create(name, true)] else []) + Adds(name, added) + Removes(name, removed)
  }

  /**
   * What the log of reconciling the first `k` repositories of `names`
   * holds: only creations, grants and revocations that reconciling these
   * repositories may issue, and one creation for each repository that did
   * not exist in `before`, and no other.
   */
  ghost predicate ProjectLog(emitted: seq<Action>, names: seq<string>, k: nat, before: Repos, m: set<Login>, t: set<Login>)
    requires k <= |names|
  {
    && (forall a :: a in emitted ==> ProjectAction(a, names, m, t))
    && Distinct(Creations(emitted))
    && (forall r :: r in Creations(emitted) <==> r in names[..k] && r !in before)
  }

  lemma ReconcileReposStep(repos: Repos, names: seq<string>, i: nat, m: set<Login>, t: set<Login>)
    requires i < |names|
    ensures ReconcileRepos(repos, names[..i + 1], m, t)
         == ReconcileRepo(ReconcileRepos(repos, names[..i], m, t), names[i], m, t)
  {
    assert names[..i + 1][..i] == names[..i];
  }

  /** Reconciling the next repository keeps the project log's guarantees. */
  lemma ProjectLogStep(emitted: seq<Action>, names: seq<string>, i: nat, before: Repos, m: set<Login>, t: set<Login>,
                       created: bool, added: seq<Login>, removed: seq<Login>)
    requires i < |names|
    requires ProjectLog(emitted, names, i, before, m, t)
    requires created <==> names[i] !in ReconcileRepos(before, names[..i], m, t)
    requires forall u :: u in added ==> u in m && u !in t
    requires forall u :: u in removed ==> u !in m && u !in t
    ensures ProjectLog(emitted + RepoLog(names[i], created, added, removed), names, i + 1, before, m, t)
  {
    var n := names[i];
    var chunk := RepoLog(n, created, added, removed);
    RepoLogActions(n, created, added, removed, names, m, t);
    ActionsAppend(emitted, chunk, names, m, t);
    RepoLogCreates(n, created, added, removed);
    CreationsAppend(emitted, chunk);
    CreationsStep(Creations(emitted), names, i, before, m, t, created);
  }

  lemma ActionsAppend(a: seq<Action>, b: seq<Action>, names: seq<string>, m: set<Login>, t: set<Login>)
    requires forall x :: x in a ==> ProjectAction(x, names, m, t)
    requires forall x :: x in b ==> ProjectAction(x, names, m, t)
    ensures forall x :: x in a + b ==> ProjectAction(x, names, m, t)
  {
  }

  /** One more repository adds a creation exactly when it was absent before the whole project. */
  lemma CreationsStep(cs: seq<string>, names: seq<string>, i: nat, before: Repos, m: set<Login>, t: set<Login>, created: bool)
    requires i < |names|
    requires Distinct(cs)
    requires forall r :: r in cs <==> r in names[..i] && r !in before
    requires created <==> names[i] !in ReconcileRepos(before, names[..i], m, t)
    ensures Distinct(cs + if created then [names[i]] else [])
    ensures forall r :: r in (cs + if created then [names[i]] else []) <==> r in names[..i + 1] && r !in before
  {
    assert names[..i + 1] == names[..i] + [names[i]];
    ReconcileReposKeys(before, names[..i], m, t);
  }

  /** Reconciling an absent repository is reconciling it after creating it empty. */
  lemma ReconcileAfterCreate(repos: Repos, name: string, m: set<Login>, t: set<Login>)
    ensures var created := if name in repos then repos else repos[name := {}];
      ReconcileRepo(created, name, m, t) == ReconcileRepo(repos, name, m, t)
  {
  }

  lemma RepoLogActions(name: string, created: bool, added: seq<Login>, removed: seq<Login>,
                       names: seq<string>, m: set<Login>, t: set<Login>)
    requires name in names
    requires forall u :: u in added ==> u in m && u !in t
    requires forall u :: u in removed ==> u !in m && u !in t
    ensures forall a :: a in RepoLog(name, created, added, removed) ==> ProjectAction(a, names, m, t)
  {
    forall a | a in RepoLog(name, created, added, removed) ensures ProjectAction(a, names, m, t) {
      if a in Adds(name, added) {
        var k :| 0 <= k < |added| && Adds(name, added)[k] == a;
        assert added[k] in added;
      } else if a in Removes(name, removed) {
        var k :| 0 <= k < |removed| && Removes(name, removed)[k] == a;
        assert removed[k] in removed;
      }
    }
  }

  /** The repositories a log creates, in the order it creates them. */
  function Creations(log: seq<Action>): (r: seq<string>) {
    if log == [] then []
    else
      var last := log[|log| - 1];
      Creations(log[..|log| - 1]) + if last.Create? then [last.repo] else []
  }

  lemma {:induction false} CreationsAppend(a: seq<Action>, b: seq<Action>)
    ensures Creations(a + b) == Creations(a) + Creations(b)
  {
    if b != [] {
      var init := b[..|b| - 1];
      assert (a + b)[..|a + b| - 1] == a + init;
      CreationsAppend(a, init);
    } else {
      assert a + b == a;
    }
  }

  lemma {:induction false} NoCreations(log: seq<Action>)
    requires forall a :: a in log ==> !a.Create?
    ensures Creations(log) == []
  {
    if log != [] {
      NoCreations(log[..|log| - 1]);
    }
  }

  /** Reconciling one repository logs one creation, of that repository, exactly when it was absent. */
  lemma RepoLogCreates(name: string, created: bool, added: seq<Login>, removed: seq<Login>)
    ensures Creations(RepoLog(name, created, added, removed)) == if created then [name] else []
  {
    var rest := Adds(name, added) + Removes(name, removed);
    forall a | a in rest ensures !a.Create? {
      if a in Adds(name, added) {
        var k :| 0 <= k < |added| && Adds(name, added)[k] == a;
      } else {
        var k :| 0 <= k < |removed| && Removes(name, removed)[k] == a;
      }
    }
    NoCreations(rest);
    assert RepoLog(name, created, added, removed) == (if created then [Create(name, true)] else []) + rest;
    CreationsAppend(if created then [Create(name, true)] else [], rest);
    if created {
      assert Creations([Create(name, true)]) == Creations([]) + [name];
    }
  }

  /** Dropping the logins that match `d` case-insensitively drops exactly `d` from the lowercased view. */
  lemma LowerSetMinusMatching(xs: set<Login>, d: set<Login>)
    ensures LowerSet(xs - MatchingLogins(xs, d)) == LowerSet(xs) - d
  {
    forall y | y in LowerSet(xs) - d ensures y in LowerSet(xs - MatchingLogins(xs, d)) {
      var u :| u in xs && Lower(u) == y;
      assert u in xs - MatchingLogins(xs, d);
    }
  }

  /** Reconciling a repository leaves it existing, private or not, and converged. */
  lemma ReconcileRepoConverges(repos: Repos, name: string, m: set<Login>, t: set<Login>)
    requires AllLower(m)
    ensures Converged(ReconcileRepo(repos, name, m, t), name, m, t)
  {
    ReconcileRepoSnapshot(repos, name, m, t);
    PlanConverges(m, Snapshot(repos, name), t);
  }

  lemma {:induction false} ReconcileReposKeys(repos: Repos, names: seq<string>, m: set<Login>, t: set<Login>)
    ensures ReconcileRepos(repos, names, m, t).Keys == repos.Keys + set r | r in names
  {
    if names != [] {
      var init := names[..|names| - 1];
      ReconcileReposKeys(repos, init, m, t);
      assert names == init + [names[|names| - 1]];
    }
  }

  /** After reconciling a project's repositories, every one of them exists and is converged. */
  lemma {:induction false} ReconcileReposConverged(repos: Repos, names: seq<string>, m: set<Login>, t: set<Login>)
    requires AllLower(m)
    ensures forall r :: r in names ==> Converged(ReconcileRepos(repos, names, m, t), r, m, t)
  {
    if names != [] {
      var init := names[..|names| - 1];
      var n := names[|names| - 1];
      ReconcileReposConverged(repos, init, m, t);
      ReconcileRepoConverges(ReconcileRepos(repos, init, m, t), n, m, t);
      forall r | r in names ensures Converged(ReconcileRepos(repos, names, m, t), r, m, t) {
        if r != n {
          assert r in init by {
            var i :| 0 <= i < |names| && names[i] == r;
            assert i < |names| - 1 && init[i] == r;
          }
        }
      }
    }
  }

  /** A repository that `names` does not list is left as it was. */
  lemma {:induction false} ReconcileReposFrame(repos: Repos, names: seq<string>, m: set<Login>, t: set<Login>, r: string)
    requires r !in names
    ensures r in ReconcileRepos(repos, names, m, t) <==> r in repos
    ensures r in repos ==> ReconcileRepos(repos, names, m, t)[r] == repos[r]
  {
    if names != [] {
      var init := names[..|names| - 1];
      ReconcileReposFrame(repos, init, m, t, r);
    }
  }

  lemma {:induction false} ReconcileProjectsKeys(repos: Repos, projects: seq<Project>, t: set<Login>)
    ensures ReconcileProjects(repos, projects, t).Keys == repos.Keys + RepoNames(projects)
  {
    if projects != [] {
      var init := projects[..|projects| - 1];
      var p := projects[|projects| - 1];
      ReconcileProjectsKeys(repos, init, t);
      ReconcileReposKeys(ReconcileProjects(repos, init, t), p.repos, Elements(p.maintainers), t);
    }
  }

  /**
   * After all projects are reconciled, a repository is converged against
   * the maintainers of the last project that lists it.
   */
  lemma {:induction false} ReconcileProjectsConverged(repos: Repos, projects: seq<Project>, t: set<Login>, i: nat, r: string)
    requires i < |projects| && r in projects[i].repos
    requires forall j :: i < j < |projects| ==> r !in projects[j].repos
    requires AllLowerSeq(projects[i].maintainers)
    ensures Converged(ReconcileProjects(repos, projects, t), r, Elements(projects[i].maintainers), t)
  {
    var init := projects[..|projects| - 1];
    var p := projects[|projects| - 1];
    var prev := ReconcileProjects(repos, init, t);
    var m := Elements(projects[i].maintainers);
    if i == |projects| - 1 {
      assert AllLower(m);
      ReconcileReposConverged(prev, p.repos, m, t);
    } else {
      ReconcileProjectsConverged(repos, init, t, i, r);
      ReconcileReposFrame(prev, p.repos, Elements(p.maintainers), t, r);
    }
  }

  /**
   * Two projects sharing repository `r`: the run leaves it with the second
   * project's maintainers, so the first project's plan against the final
   * state asks to grant its maintainers missing from the second and to
   * revoke the second's maintainers missing from it, on every run.
   */
  lemma SharedRepoLastWins(repos: Repos, r: string, m1: seq<Login>, m2: seq<Login>, t: set<Login>)
    requires AllLowerSeq(m1) && AllLowerSeq(m2)
    ensures var after := ReconcileProjects(repos, [Project([r], m1), Project([r], m2)], t);
      && Snapshot(after, r) - t == Elements(m2) - t
      && Additions(Elements(m1), Snapshot(after, r), t) == (Elements(m1) - Elements(m2)) - t
      && Removals(Elements(m1), Snapshot(after, r), t) == (Elements(m2) - Elements(m1)) - t
  {
    var ps := [Project([r], m1), Project([r], m2)];
    var e1, e2 := Elements(m1), Elements(m2);
    assert AllLower(e1) && AllLower(e2);
    var head := ps[..1];
    assert head == [Project([r], m1)] && head[..0] == [];
    ReconcileReposSingle(repos, r, e1, t);
    var first := ReconcileRepo(repos, r, e1, t);
    assert ReconcileProjects(repos, head, t) == first;
    assert ps[..|ps| - 1] == head;
    ReconcileReposSingle(first, r, e2, t);
    ReconcileRepoSnapshot(first, r, e2, t);
    PlanReachesTarget(e2, Snapshot(first, r), t);
  }

  /** Two projects that share a repository but not their maintainers never both converge. */
  lemma SharedRepoExample()
    ensures var after := ReconcileProjects(map[], [Project(["r"], ["a"]), Project(["r"], ["b"])], {});
      && Additions({"a"}, Snapshot(after, "r"), {}) == {"a"}
      && Removals({"a"}, Snapshot(after, "r"), {}) == {"b"}
  {
    assert IsLower("a") && IsLower("b");
    assert Elements(["a"]) == {"a"} && Elements(["b"]) == {"b"};
    SharedRepoLastWins(map[], "r", ["a"], ["b"], {});
  }

  lemma ReconcileReposSingle(repos: Repos, name: string, m: set<Login>, t: set<Login>)
    ensures ReconcileRepos(repos, [name], m, t) == ReconcileRepo(repos, name, m, t)
  {
    assert [name][..0] == [];
  }

  /** Reconciling a repository applies the plan to its lowercased collaborators. */
  lemma ReconcileRepoSnapshot(repos: Repos, name: string, m: set<Login>, t: set<Login>)
    requires AllLower(m)
    ensures Snapshot(ReconcileRepo(repos, name, m, t), name) == Applied(m, Snapshot(repos, name), t)
  {
    var raw := if name in repos then repos[name] else {};
    var c := LowerSet(raw);
    var a := Additions(m, c, t);
    var granted := raw + a;
    LowerSetMinusMatching(granted, Removals(m, c, t));
    LowerSetUnion(raw, a);
    LowerSetOfLower(a);
  }

  /** The log of one repository makes exactly the calls its plan asks for. */
  lemma RepoLogPerformed(repos: Repos, name: string, m: set<Login>, t: set<Login>,
                         created: bool, added: seq<Login>, removed: seq<Login>)
    requires created <==> name !in repos
    requires Lists(added, Additions(m, Snapshot(repos, name), t))
    requires Lists(removed, Removals(m, Snapshot(repos, name), t))
    ensures Performed(RepoLog(name, created, added, removed)) == RepoActions(repos, name, m, t)
  {
    var log := RepoLog(name, created, added, removed);
    forall a | a in log ensures a in RepoActions(repos, name, m, t) {
      if a in Adds(name, added) {
        var k :| 0 <= k < |added| && Adds(name, added)[k] == a;
        assert added[k] in added;
      } else if a in Removes(name, removed) {
        var k :| 0 <= k < |removed| && Removes(name, removed)[k] == a;
        assert removed[k] in removed;
      }
    }
    forall a | a in RepoActions(repos, name, m, t) ensures a in log {
      if a.Add? {
        var k :| 0 <= k < |added| && added[k] == a.user;
        assert Adds(name, added)[k] == a;
      } else if a.Remove? {
        var k :| 0 <= k < |removed| && removed[k] == a.user;
        assert Removes(name, removed)[k] == a;
      }
    }
  }

  lemma ProjectPerformedStep(emitted: seq<Action>, chunk: seq<Action>, before: Repos, names: seq<string>, i: nat,
                             m: set<Login>, t: set<Login>)
    requires i < |names|
    requires Performed(emitted) == ProjectActions(before, names[..i], m, t)
    requires Performed(chunk) == RepoActions(ReconcileRepos(before, names[..i], m, t), names[i], m, t)
    ensures Performed(emitted + chunk) == ProjectActions(before, names[..i + 1], m, t)
  {
    assert names[..i + 1][..i] == names[..i];
    assert Performed(emitted + chunk) == Performed(emitted) + Performed(chunk);
  }

  /**
   * The calls of reconciling `project` from `before`: only the calls its
   * repositories may need, exactly the planned ones, and one creation for
   * each listed repository that did not exist, and no other.
   */
  ghost predicate ProjectCalls(emitted: seq<Action>, before: Repos, project: Project, t: set<Login>) {
    var m := Elements(project.maintainers);
    && (forall a :: a in emitted ==> ProjectAction(a, project.repos, m, t))
    && Performed(emitted) == ProjectActions(before, project.repos, m, t)
    && Distinct(Creations(emitted))
    && (forall r :: r in Creations(emitted) <==> r in project.repos && r !in before)
  }

  /**
   * The repository calls of reconciling `projects` from `before`: exactly
   * the planned calls, with one creation for each listed repository that
   * did not exist, and no other.
   */
  ghost predicate RunCalls(emitted: seq<Action>, before: Repos, projects: seq<Project>, t: set<Login>) {
    && Performed(emitted) == RunActions(before, projects, t)
    && Distinct(Creations(emitted))
    && (forall r :: r in Creations(emitted) <==> r in RepoNames(projects) && r !in before)
  }

  /** What the repository phase of a run has done after `k` projects. */
  ghost predicate RunProgress(emitted: seq<Action>, projects: seq<Project>, k: nat, before: Repos, t: set<Login>)
    requires k <= |projects|
  {
    RunCalls(emitted, before, projects[..k], t)
  }

  lemma RunCreationsStep(cs: seq<string>, ds: seq<string>, projects: seq<Project>, i: nat, before: Repos, t: set<Login>)
    requires i < |projects|
    requires Distinct(cs) && forall r :: r in cs <==> r in RepoNames(projects[..i]) && r !in before
    requires Distinct(ds)
    requires forall r :: r in ds <==> r in projects[i].repos && r !in ReconcileProjects(before, projects[..i], t)
    ensures Distinct(cs + ds)
    ensures forall r :: r in cs + ds <==> r in RepoNames(projects[..i + 1]) && r !in before
  {
    assert projects[..i + 1][..i] == projects[..i];
    ReconcileProjectsKeys(before, projects[..i], t);
    DistinctAppend(cs, ds);
  }

  lemma DistinctAppend(cs: seq<string>, ds: seq<string>)
    requires Distinct(cs) && Distinct(ds)
    requires forall r :: r in cs ==> r !in ds
    ensures Distinct(cs + ds)
  {
    forall i, j | 0 <= i < j < |cs + ds| ensures (cs + ds)[i] != (cs + ds)[j] {
      if i < |cs| <= j {
        assert (cs + ds)[i] in cs && (cs + ds)[j] in ds;
      }
    }
  }

  lemma RunProgressStep(emitted: seq<Action>, chunk: seq<Action>, projects: seq<Project>, i: nat, before: Repos, t: set<Login>)
    requires i < |projects|
    requires RunProgress(emitted, projects, i, before, t)
    requires ProjectCalls(chunk, ReconcileProjects(before, projects[..i], t), projects[i], t)
    ensures RunProgress(emitted + chunk, projects, i + 1, before, t)
  {
    RunPerformedStep(emitted, chunk, projects, i, before, t);
    CreationsAppend(emitted, chunk);
    RunCreationsStep(Creations(emitted), Creations(chunk), projects, i, before, t);
  }

  lemma RunPerformedStep(emitted: seq<Action>, chunk: seq<Action>, projects: seq<Project>, i: nat, before: Repos, t: set<Login>)
    requires i < |projects|
    requires Performed(emitted) == RunActions(before, projects[..i], t)
    requires Performed(chunk)
      == ProjectActions(ReconcileProjects(before, projects[..i], t), projects[i].repos, Elements(projects[i].maintainers), t)
    ensures Performed(emitted + chunk) == RunActions(before, projects[..i + 1], t)
  {
    assert projects[..i + 1][..i] == projects[..i];
    assert Performed(emitted + chunk) == Performed(emitted) + Performed(chunk);
  }

  /** The client: host state as observed and changed, and the log of mutating calls. */
  class Auth {
    var repos: Repos
    var members: set<Login>
    /** The login the client is authenticated as. */
    const self: Login
    /** The organisation whose repositories and members the client manages. */
    const organization: string
    var log: seq<Action>

    /** `repos` and `members` are what the host reports for the organisation when the client starts. */
    constructor (repos: Repos, members: set<Login>, self: Login)
      ensures this.repos == repos && this.members == members && this.self == self
      ensures organization == Organization
      ensures log == []
    {
      this.repos := repos;
      this.members := members;
      this.self := self;
      organization := Organization;
      log := [];
    }

    /** Grants `permission="maintain"` on `name` to every user of `users`, one call per user. */
    method AddCollaborators(name: string, users: set<Login>) returns (order: seq<Login>)
      requires name in repos
      modifies this
      ensures Lists(order, users)
      ensures log == old(log) + Adds(name, order)
      ensures repos == old(repos)[name := old(repos)[name] + users]
      ensures members == old(members)
    {
      order := Enumerate(users);
      ghost var before := repos[name];
      var i := 0;
      while i < |order|
        invariant 0 <= i <= |order|
        invariant name in repos && repos[name] == before + Elements(order[..i])
        invariant repos == old(repos)[name := repos[name]]
        invariant log == old(log) + Adds(name, order[..i])
        invariant members == old(members)
      {
        var user := order[i];
        assert order[..i + 1] == order[..i] + [user];
        ElementsAppend(order[..i], [user]);
        AddsAppend(name, order[..i], user);
        repos := repos[name := repos[name] + {user}];
        log := log + [Add(name, user, CollaboratorPermission)];
        i := i + 1;
      }
      assert order[..i] == order;
      assert Elements(order) == users;
    }

    /** Revokes every user of `users` from `name`, one call per user. */
    method RemoveCollaborators(name: string, users: set<Login>) returns (order: seq<Login>)
      requires name in repos
      modifies this
      ensures Lists(order, users)
      ensures log == old(log) + Removes(name, order)
      ensures repos == old(repos)[name := old(repos)[name] - MatchingLogins(old(repos)[name], users)]
      ensures members == old(members)
    {
      order := Enumerate(users);
      ghost var before := repos[name];
      assert before - MatchingLogins(before, Elements(order[..0])) == before;
      var i := 0;
      while i < |order|
        invariant 0 <= i <= |order|
        invariant name in repos && repos[name] == before - MatchingLogins(before, Elements(order[..i]))
        invariant repos == old(repos)[name := repos[name]]
        invariant log == old(log) + Removes(name, order[..i])
        invariant members == old(members)
      {
        var user := order[i];
        assert order[..i + 1] == order[..i] + [user];
        ElementsAppend(order[..i], [user]);
        RemovesAppend(name, order[..i], user);
        MatchingStep(before, Elements(order[..i]), user);
        repos := repos[name := repos[name] - MatchingLogins(repos[name], {user})];
        log := log + [Remove(name, user)];
        i := i + 1;
      }
      assert order[..i] == order;
      assert Elements(order) == users;
    }

    /** Looks repository `name` up and creates it as private when it does not exist. */
    method EnsureRepo(name: string) returns (created: bool)
      modifies this
      ensures created <==> name !in old(repos)
      ensures repos == if created then old(repos)[name := {}] else old(repos)
      ensures log == old(log) + if created then [Create(name, true)] else []
      ensures members == old(members)
    {
      created := name !in repos;
      if created {
        repos := repos[name := {}];
        log := log + [Create(name, true)];
      }
    }

    /**
     * Grants the additions and revokes the removals planned from one
     * snapshot of the collaborators of an existing repository.
     */
    method SyncCollaborators(name: string, m: set<Login>, t: set<Login>) returns (added: seq<Login>, removed: seq<Login>)
      requires name in repos
      modifies this
      ensures Lists(added, Additions(m, LowerSet(old(repos)[name]), t))
      ensures Lists(removed, Removals(m, LowerSet(old(repos)[name]), t))
      ensures log == old(log) + Adds(name, added) + Removes(name, removed)
      ensures repos == ReconcileRepo(old(repos), name, m, t)
      ensures members == old(members)
    {
      ghost var raw := repos[name];
      var collaborators := LowerSet(repos[name]);
      var additions := Additions(m, collaborators, t);
      added := AddCollaborators(name, additions);
      ghost var granted := raw + additions;
      var removals := Removals(m, collaborators, t);
      removed := RemoveCollaborators(name, removals);
      assert repos == old(repos)[name := granted - MatchingLogins(granted, removals)];
    }

    /** Reconciles one repository: create it if absent, then synchronise its collaborators. */
    method UpdateRepo(name: string, m: set<Login>, t: set<Login>) returns (created: bool, added: seq<Login>, removed: seq<Login>)
      modifies this
      ensures created <==> name !in old(repos)
      ensures Lists(added, Additions(m, Snapshot(old(repos), name), t))
      ensures Lists(removed, Removals(m, Snapshot(old(repos), name), t))
      ensures created ==> Lists(added, m - t) && removed == []
      ensures log == old(log) + RepoLog(name, created, added, removed)
      ensures Performed(RepoLog(name, created, added, removed)) == RepoActions(old(repos), name, m, t)
      ensures repos == ReconcileRepo(old(repos), name, m, t)
      ensures members == old(members)
    {
      created := EnsureRepo(name);
      added, removed := SyncCollaborators(name, m, t);
      ReconcileAfterCreate(old(repos), name, m, t);
      RepoLogPerformed(old(repos), name, m, t, created, added, removed);
      if created {
        assert Snapshot(old(repos), name) == {};
        EmptyRepositoryPlan(m, t);
        if removed != [] {
          ListsHead(removed, Removals(m, {}, t));
        }
      }
    }

    /** Reconciles every repository of `project`, in order, against the internal team. */
    method UpdateProject(project: Project, internalTeam: seq<Login>) returns (ghost emitted: seq<Action>)
      modifies this
      ensures repos == ReconcileRepos(old(repos), project.repos, Elements(project.maintainers), Elements(internalTeam))
      ensures members == old(members)
      ensures log == old(log) + emitted
      ensures ProjectCalls(emitted, old(repos), project, Elements(internalTeam))
      ensures AllLowerSeq(project.maintainers) ==>
        forall r :: r in project.repos ==> Converged(repos, r, Elements(project.maintainers), Elements(internalTeam))
    {
      var m := Elements(project.maintainers);
      var t := Elements(internalTeam);
      var names := project.repos;
      emitted := [];
      var i := 0;
      while i < |names|
        invariant 0 <= i <= |names|
        invariant repos == ReconcileRepos(old(repos), names[..i], m, t)
        invariant members == old(members)
        invariant log == old(log) + emitted
        invariant ProjectLog(emitted, names, i, old(repos), m, t)
        invariant Performed(emitted) == ProjectActions(old(repos), names[..i], m, t)
      {
        var n := names[i];
        ghost var current := repos;
        var created, added, removed := UpdateRepo(n, m, t);
        ProjectLogStep(emitted, names, i, old(repos), m, t, created, added, removed);
        ProjectPerformedStep(emitted, RepoLog(n, created, added, removed), old(repos), names, i, m, t);
        ReconcileReposStep(old(repos), names, i, m, t);
        AppendAssoc(old(log), emitted, RepoLog(n, created, added, removed));
        emitted := emitted + RepoLog(n, created, added, removed);
        i := i + 1;
      }
      assert names[..i] == names;
      if AllLowerSeq(project.maintainers) {
        assert AllLower(m);
        ReconcileReposConverged(old(repos), names, m, t);
      }
    }

    /** Reconciles every project in order, all against the same internal team. */
    method UpdateProjects(projects: seq<Project>, internalTeam: seq<Login>) returns (ghost emitted: seq<Action>)
      modifies this
      ensures repos == ReconcileProjects(old(repos), projects, Elements(internalTeam))
      ensures members == old(members)
      ensures log == old(log) + emitted
      ensures RunLog(emitted, MaintainerUnion(projects), Elements(internalTeam))
      ensures RunCalls(emitted, old(repos), projects, Elements(internalTeam))
    {
      var t := Elements(internalTeam);
      emitted := [];
      var i := 0;
      while i < |projects|
        invariant 0 <= i <= |projects|
        invariant repos == ReconcileProjects(old(repos), projects[..i], t)
        invariant members == old(members)
        invariant log == old(log) + emitted
        invariant RunLog(emitted, MaintainerUnion(projects), t)
        invariant RunProgress(emitted, projects, i, old(repos), t)
      {
        assert projects[..i + 1][..i] == projects[..i];
        ghost var chunk := UpdateProject(projects[i], internalTeam);
        RunLogStep(emitted, chunk, projects, i, t);
        RunProgressStep(emitted, chunk, projects, i, old(repos), t);
        AppendAssoc(old(log), emitted, chunk);
        emitted := emitted + chunk;
        i := i + 1;
      }
      assert projects[..i] == projects;
    }

    /**
     * Invites every maintainer that is not an organisation member, except
     * the authenticated account itself; members are never removed.
     */
    method UpdateOrg(maintainers: set<Login>) returns (invited: seq<Login>)
      modifies this
      ensures Lists(invited, OrgInvites(maintainers, LowerSet(old(members)), self))
      ensures log == old(log) + Invites(invited)
      ensures members == old(members) + Elements(invited)
      ensures repos == old(repos)
      ensures AllLower(maintainers) ==> OrgInvites(maintainers, LowerSet(members), self) == {}
    {
      var orgMembers := LowerSet(members);
      var additions := maintainers - orgMembers;
      var order := Enumerate(additions);
      invited := [];
      var i := 0;
      while i < |order|
        invariant 0 <= i <= |order|
        invariant Distinct(invited)
        invariant forall u :: u in invited <==> u in order[..i] && !IsSelf(u, self)
        invariant log == old(log) + Invites(invited)
        invariant members == old(members) + Elements(invited)
        invariant repos == old(repos)
      {
        var member := order[i];
        assert order[..i + 1] == order[..i] + [member];
        if !IsSelf(member, self) {
          assert member !in order[..i];
          InvitesAppend(invited, member);
          ElementsAppend(invited, [member]);
          members := members + {member};
          log := log + [Invite(member, MemberRole)];
          invited := invited + [member];
        }
        i := i + 1;
      }
      assert order[..i] == order;
      ghost var done := OrgInvites(maintainers, orgMembers, self);
      assert Elements(invited) == done;
      if AllLower(maintainers) {
        OrgConvergedAfterInvites(maintainers, old(members), self);
      }
    }
  }

  /**
   * What the repository phase of a run may log: private creations, grants
   * of maintainers and revocations, never touching an internal-team member
   * and never inviting.
   */
  ghost predicate RunLog(emitted: seq<Action>, maintainers: set<Login>, t: set<Login>) {
    forall a :: a in emitted ==>
      && !a.Invite?
      && (a.Create? ==> a.isPrivate)
      && (a.Add? ==> a.user in maintainers && a.user !in t)
      && (a.Remove? ==> a.user !in t)
  }

  lemma RunLogStep(emitted: seq<Action>, chunk: seq<Action>, projects: seq<Project>, i: nat, t: set<Login>)
    requires i < |projects|
    requires RunLog(emitted, MaintainerUnion(projects), t)
    requires forall a :: a in chunk ==> ProjectAction(a, projects[i].repos, Elements(projects[i].maintainers), t)
    ensures RunLog(emitted + chunk, MaintainerUnion(projects), t)
  {
    forall a | a in chunk && a.Add? ensures a.user in MaintainerUnion(projects) {
      MaintainerUnionSound(projects, a.user);
    }
  }

  /**
   * The entry point after the configuration is loaded: flatten it, reconcile
   * every project in order, then invite the missing organisation members.
   * A configuration that fails to flatten stops the run before any call.
   */
  method Run(auth: Auth, doc: Document) returns (res: Result<Flattened>, invited: seq<Login>, ghost repoCalls: seq<Action>)
    modifies auth
    ensures res == Flatten(doc)
    ensures res.Err? ==>
      auth.repos == old(auth.repos) && auth.members == old(auth.members) && auth.log == old(auth.log)
    ensures res.Ok? ==>
      var f := res.value;
      && auth.repos == ReconcileProjects(old(auth.repos), f.projects, Elements(f.internalTeam))
      && Lists(invited, OrgInvites(f.maintainers, LowerSet(old(auth.members)), auth.self))
      && auth.members == old(auth.members) + Elements(invited)
      && auth.log == old(auth.log) + repoCalls + Invites(invited)
      && RunLog(repoCalls, f.maintainers, Elements(f.internalTeam))
      && RunCalls(repoCalls, old(auth.repos), f.projects, Elements(f.internalTeam))
      && OrgInvites(f.maintainers, LowerSet(auth.members), auth.self) == {}
  {
    invited, repoCalls := [], [];
    res := ParseAndFlatten(doc);
    if res.Err? {
      return;
    }
    var f := res.value;
    FlattenResult(doc);
    repoCalls := auth.UpdateProjects(f.projects, f.internalTeam);
    invited := auth.UpdateOrg(f.maintainers);
  }
}
