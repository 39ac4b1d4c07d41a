# Access-control reconciler for the SDC-MUJ organisation

This project models the reconciler in `main.py` and proves properties of the model. The reconciler reads a configuration of projects: each project has repositories and maintainers, and there is one organisation-wide internal team. It then brings the hosting service in line with that configuration:

- It creates every missing repository as private.
- It grants `maintain` to every maintainer who is neither a collaborator nor an internal-team member.
- It revokes every collaborator who is neither a maintainer nor an internal-team member.
- It invites every maintainer who is not yet an organisation member, except the authenticated account itself.

The model has four modules, one per file:

- `identity.dfy` (`Identity`): logins and their ASCII lowercasing (`str.lower()`).
- `reconcile.dfy` (`Reconcile`): the additions, removals and organisation-invite plans as set algebra, with their properties:
  - soundness of every set;
  - disjointness;
  - internal-team immunity;
  - minimality;
  - convergence, meaning that re-planning after applying the plan yields nothing.
- `config.dfy` (`Config`): covers `parse_and_flatten` after the YAML load, and the `Project` record.
  - The loaded document is modelled as a datatype. Every key can be missing, `null` or present.
  - `Flatten` is the specification function, with the error each malformed input raises.
  - The method `ParseAndFlatten` keeps the source's append loops and is proved equal to `Flatten`.
  - Lemmas give the meaning of the result: one project per entry in order, repos unchanged, maintainers and team lowercased, and the returned set equal to the union of all maintainers.
- `sync.dfy` (`Sync`): the class `Auth` with `update_project`, `update_org` and `main`'s call order (`Run`).
  - The hosting service is abstract state: a map from repository to collaborator logins, a set of member logins, and the authenticated login.
  - Every mutating call made to the host is appended to an action log (`Create`, `Add`, `Remove`, `Invite`).
  - Each call is applied at once:
    - a created repository starts with no collaborators;
    - an added collaborator or invited member holds that status from then on;
    - a removal drops every login that matches case-insensitively.
  - The methods are proved against specification functions (`ReconcileRepo`, `ReconcileRepos`, `ReconcileProjects`, `OrgInvites`).
  - The set of calls each method logs is exactly the set its plan asks for (`RepoActions`, `ProjectActions`, `RunActions`): every planned grant, revocation and creation is made, and nothing else.
  - Each absent repository is created exactly once, and an existing one never.
  - When a project's pass ends, each of its repositories is converged against that project's maintainers. After the whole run, a repository is converged against the last project that lists it, and the organisation is converged.

Repositories listed by more than one project: `main.py:94-95` reconciles the projects one after another against the same repository, so outside the internal team the last project that lists a repository decides its collaborators; internal-team members keep their status. After a run, the next run's pass of the earlier project grants exactly its maintainers that the later project lacks, and revokes exactly the later project's maintainers that it lacks, both outside the internal team (`Sync.SharedRepoLastWins`). So the two plans stay non-empty run after run exactly when the two maintainer lists differ outside the internal team.

Facts about `main.py` that the model follows:

- A project entry without a `maintainers` key raises `KeyError` at `main.py:75`; only an explicit `null` counts as an empty list. The model returns `Err(MissingKey("maintainers"))` for a missing key and `[]` for `null`.
- Pending repository invitations are not subtracted from the additions at `main.py:38`.
- `main.py` has no dry-run switch and provisions no secrets.

## Model

| member | source | states |
|---|---|---|
| Config.ParseAndFlatten | main.py:65-86 | The nested append loops return exactly `Flatten(doc)`: the flattened projects, team and maintainer set, or the first lookup error the code would raise (a missing key, or a `null` where a mapping or list is iterated). |
| Config.ParseProject | main.py:71-78 | Building one `Project` from an entry gives the same result as `ProjectOf`: an error on a missing or null `repos`, an error on a missing `maintainers`, and `[]` for a null one. |
| Config.CopyRepos | main.py:73-74 | The repo append loop returns the configured repos in their original order. |
| Config.LowerUsers | main.py:75-76 | The result has the input's length, and its element k is the lowercased input element k. |
| Config.ProjectOfShape | main.py:71-78 | An entry flattens if and only if `repos` is present and `maintainers` is not missing. Repos are kept as they are. A `null` maintainer list gives `[]`. Otherwise maintainer k is the lowercased configured maintainer k, and every maintainer is lowercase. |
| Config.FlattenProjectsShape | main.py:70-79 | The projects flatten if and only if every entry is well formed. Then there is exactly one `Project` per entry, in order, each being that entry's `ProjectOf`. |
| Config.FlattenTeamShape | main.py:81-84 | The team flattens if and only if no team's user list is `null`. Then every identifier is lowercase, and a login is in the list if and only if it is the lowercased form of some team's user. |
| Config.MaintainerUnionSound | main.py:77 | A login is in the maintainer union if and only if it is a maintainer of some project. |
| Config.FlattenOkIff | main.py:70-86 | The document flattens if and only if `projects` and `internal_team` are present and every entry and team is well formed. |
| Config.FlattenResult | main.py:86 | A flattened document has one project per entry, in order. All maintainer and team logins are lowercase. The third result is exactly the union of the projects' maintainer lists. |
| Config.FlattenProjectsPrefixErr | main.py:70-79 | When an entry fails, the whole loop fails with that entry's error, so entries after it are never looked at. |
| Identity.LowerChar | main.py:76 | The result is never upper-case. It is the character 32 code points up for `A`-`Z`, and any other character unchanged. |
| Identity.LowerEachIsLower | main.py:75-76 | Lowercasing a list keeps its length and leaves every element lowercase. |
| Identity.LowerIdempotent | main.py:33 | Lowercasing an already lowercased login changes nothing. |
| Identity.LowerSetOfLower | main.py:51 | A set of lowercase logins is its own lowercased image. |
| Reconcile.AdditionsSound | main.py:38 | A user is added if and only if they are a maintainer, not a current collaborator and not in the internal team. |
| Reconcile.RemovalsSound | main.py:44 | A user is removed if and only if they are a current collaborator, not a maintainer and not in the internal team. |
| Reconcile.PlanDisjoint | main.py:38-44 | No user is both added and removed. |
| Reconcile.PlanSparesTeam | main.py:38-44 | Neither additions nor removals contain an internal-team member, whether or not they are a maintainer. |
| Reconcile.PlanReachesTarget | main.py:38-47 | After the plan is applied, the non-team collaborators are exactly the non-team maintainers, and team members keep their status. |
| Reconcile.PlanIsMinimal | main.py:38-44 | The plan touches exactly the non-team users whose access differs from the maintainer list. |
| Reconcile.PlanConverges | main.py:38-47 | Re-planning against `(C ∪ additions) − removals` yields empty additions and empty removals. |
| Reconcile.EmptyRepositoryPlan | main.py:30-44 | A repository with no collaborators gets additions `maintainers − internal_team` and no removals. |
| Reconcile.OrgInvitesSound | main.py:55-60 | A user is invited if and only if they are a maintainer, not a member, and not the authenticated login in any letter case. |
| Reconcile.OrgInvitesConverge | main.py:55-62 | Once the invitees are members, the next organisation plan is empty. |
| Reconcile.TeamMemberKeptExample | main.py:38-44 | With maintainers {alice, bob}, collaborators {bob, carol} and team {carol}, alice is added and carol is not removed. |
| Reconcile.OrgInviteExample | main.py:55-60 | eve is invited when the caller is `admin`, and not when the caller is `Eve`. |
| Sync.Enumerate | main.py:39 | Iterating a set visits every element exactly once, in some order. |
| Sync.Auth.constructor | main.py:19-21 | A client starts from the host's state for the organisation `SDC-MUJ`, with an empty action log. |
| Sync.Auth.AddCollaborators | main.py:39-41 | Grants each addition once, with `maintain`. Logs one `Add` per user. The repository gains exactly those users and nothing else changes. |
| Sync.Auth.RemoveCollaborators | main.py:45-47 | Revokes each removal once. Logs one `Remove` per user. The repository loses exactly the logins matching them and nothing else changes. |
| Sync.Auth.EnsureRepo | main.py:25-30 | A repository is created, as private with no collaborators, if and only if it does not exist. An existing one is left alone. |
| Sync.Auth.SyncCollaborators | main.py:32-47 | Additions and removals are both planned from one lowercased snapshot taken before any mutation. The log holds exactly one call per planned user. The new state is `ReconcileRepo`. |
| Sync.Auth.UpdateRepo | main.py:25-47 | The repository is created if and only if it was absent, and then reconciled from the snapshot. A created repository gets `maintainers − internal_team` and no removals. The log is `RepoLog`, whose calls are exactly `RepoActions`: the creation if absent, one `maintain` grant per addition and one revocation per removal. |
| Sync.Auth.UpdateProject | main.py:23-47 | The repository state becomes `ReconcileRepos`, members are unchanged, and the log only grows by the project's calls. Every new action is a private creation, an `Add` of a non-team maintainer, or a `Remove` of a non-team non-maintainer, on one of the project's repos. The set of new calls is exactly `ProjectActions`, the plan of each repo from the state its turn finds. Each absent repo is created exactly once and existing ones never. With lowercase maintainers, every repo ends converged. |
| Sync.Auth.UpdateProjects | main.py:94-95 | Reconciles the projects in order into `ReconcileProjects`. Members are unchanged. The set of new calls is exactly `RunActions`. Every repository any project lists that did not exist is created exactly once, and no other. The new log entries never invite and never touch an internal-team member. |
| Sync.Auth.UpdateOrg | main.py:49-62 | Invites exactly `maintainers − members` minus the caller, once each, as `direct_member`. Members only grow, and repositories are unchanged. With lowercase maintainers, the next organisation plan is empty. |
| Sync.Run | main.py:93-97 | Flattening comes first; a configuration error stops the run before any call. Otherwise all projects are reconciled, then the organisation. The log is repository calls followed by invitations. The repository calls are exactly `RunActions`, with each absent listed repository created once. Members are only ever added. The organisation ends converged. |
| Sync.ReconcileRepoConverges | main.py:32-47 | With lowercase maintainers, a reconciled repository has nothing left to add or remove. |
| Sync.ReconcileReposConverged | main.py:24-47 | After a project's repos are reconciled in order, every one of them exists and is converged, including repos named twice. |
| Sync.ReconcileReposKeys | main.py:24-30 | Reconciling adds exactly the project's repo names to the repositories that exist. |
| Sync.RepoLogCreates | main.py:26-30 | One repository's log holds a single `Create` of that repository when it was absent, and none otherwise. |
| Sync.LowerSetMinusMatching | main.py:33-47 | Dropping the logins that match a set case-insensitively removes exactly that set from the lowercased collaborator set. |
| Sync.RepoLogPerformed | main.py:32-47 | The calls of one repository's log are exactly its plan: creation when absent, a grant per addition, a revocation per removal. |
| Sync.ReconcileRepoSnapshot | main.py:32-47 | After reconciling, the lowercased collaborators are the plan applied to the snapshot: `(C ∪ additions) − removals`. |
| Sync.ReconcileReposFrame | main.py:24 | A repository that a project does not list is left exactly as it was. |
| Sync.ReconcileProjectsKeys | main.py:94-95 | After all projects, the repositories are the existing ones plus every repository some project lists. |
| Sync.ReconcileProjectsConverged | main.py:94-95 | After all projects, a repository is converged against the maintainers of the last project that lists it. |
| Sync.SharedRepoLastWins | main.py:94-95 | For two projects sharing a repository, the final non-team collaborators are the second project's maintainers. The first project's plan then grants its maintainers missing from the second and revokes the second's maintainers missing from it. |
| Sync.SharedRepoExample | main.py:94-95 | Projects `{r: [a]}` and `{r: [b]}`: after a run, the first project's plan is still to add `a` and remove `b`. |
| Sync.OrgConvergedAfterInvites | main.py:51-62 | If the invitees become members, re-reading the lowercased member list finds no one left to invite. |

## Left out

- YAML file reading (`main.py:66-67`) and the environment token (`main.py:90`): the model starts from an already-loaded document and an already-authenticated client.
- Logging (`main.py:10`, 29, 35, 40, 46, 52, 61): it has no effect on state.
- `github_secrets.py` is not part of this model. It wraps a sealed-box encryption library and raw HTTP calls, which cannot be modelled meaningfully here.
- Network behaviour of the host client: failures, rate limits and authentication errors. The one exception the code handles, a missing repository (`main.py:27`), is modelled as the key being absent from the repository map.
- Sync.Enumerate: Python's set iteration order is unspecified. The model fixes some order and states every property over the set of calls, not their sequence.
- Identity.LowerChar: only ASCII `A`-`Z` are lowercased. Unicode case mapping, which `str.lower()` applies, is not modelled.
- Sync.Auth.EnsureRepo: repository names are matched exactly. The host's case-insensitive repository lookup is not modelled.
- Sync.Auth.UpdateOrg: the check that the looked-up user is the authenticated account (`main.py:58-60`) is modelled as case-insensitive equality with the authenticated login. This follows the evident intent of the guard, not what the client library returns: looking a user up by login likely never yields the authenticated-user type, in which case the guard never fires. The user-lookup call itself is not modelled.
- Sync.Auth.AddCollaborators: an added collaborator appears at once. An unaccepted repository invitation, which the host does not list as a collaborator, is not modelled.
- Sync.Auth.UpdateOrg: an invited member counts as a member at once. Invitations that have not yet been accepted are not modelled.
- Repeated keys: a loaded mapping has one value per key, so the item sequences of `projects` and `internal_team` are taken to have distinct keys. On a sequence with a repeated key, `Config.Flatten` would yield one project per item where the loaded mapping holds one.
- Document shape: the whole document is taken to be a mapping, with each project entry a mapping and every list item a string. A YAML document that is empty, or that holds other types, raises errors in the code that the model does not represent.
- Pending invitations, a dry-run mode and per-action error recovery: `main.py` has none of them.
- Sync.Auth.UpdateProject, Sync.Auth.UpdateProjects, Sync.Run: the repository calls are stated as a set (`Performed`). Their order and any repetition are not stated, apart from creations, which happen exactly once each.
