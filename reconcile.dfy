/**
 * The reconciliation plan as set algebra over lowercased logins.
 *
 * For one repository the plan compares the project's maintainers `M`, the
 * repository's current collaborators `C` and the internal team `T`; for the
 * organisation it compares all maintainers with the current members.
 */
module Reconcile {
  import opened Identity

  /** Users to grant access: maintainers that are neither collaborators nor internal-team members. */
  function Additions(m: set<Login>, c: set<Login>, t: set<Login>): (r: set<Login>) {
    m - (c + t)
  }

  /** Users to revoke: collaborators that are neither maintainers nor internal-team members. */
  function Removals(m: set<Login>, c: set<Login>, t: set<Login>): (r: set<Login>) {
    c - (m + t)
  }

  /** The collaborator set the plan leads to: additions granted, removals revoked. */
  function Applied(m: set<Login>, c: set<Login>, t: set<Login>): (r: set<Login>) {
    (c + Additions(m, c, t)) - Removals(m, c, t)
  }

  /**
   * Whether the organisation's user lookup for `member` yields the caller's
   * own authenticated account; logins are case-insensitive on the host.
   */
  predicate IsSelf(member: Login, self: Login) {
    Lower(member) == Lower(self)
  }

  /** Organisation invitations: maintainers that are not members, except the caller. */
  function OrgInvites(maintainers: set<Login>, members: set<Login>, self: Login): (r: set<Login>) {
    set u | u in maintainers - members && !IsSelf(u, self)
  }

  lemma AdditionsSound(m: set<Login>, c: set<Login>, t: set<Login>, u: Login)
    ensures u in Additions(m, c, t) <==> u in m && u !in c && u !in t
  {
  }

  lemma RemovalsSound(m: set<Login>, c: set<Login>, t: set<Login>, u: Login)
    ensures u in Removals(m, c, t) <==> u in c && u !in m && u !in t
  {
  }

  /** No user is both granted and revoked in one plan. */
  lemma PlanDisjoint(m: set<Login>, c: set<Login>, t: set<Login>)
    ensures Additions(m, c, t) !! Removals(m, c, t)
  {
  }

  /** Internal-team members are never granted nor revoked, maintainers or not. */
  lemma PlanSparesTeam(m: set<Login>, c: set<Login>, t: set<Login>)
    ensures Additions(m, c, t) !! t
    ensures Removals(m, c, t) !! t
  {
  }

  /**
   * What applying the plan achieves: outside the internal team the
   * collaborators become exactly the maintainers, and the internal team's
   * collaborator status is left as it was.
   */
  lemma PlanReachesTarget(m: set<Login>, c: set<Login>, t: set<Login>)
    ensures Applied(m, c, t) - t == m - t
    ensures Applied(m, c, t) * t == c * t
  {
  }

  /** The plan touches exactly the non-team users whose access differs from the target. */
  lemma PlanIsMinimal(m: set<Login>, c: set<Login>, t: set<Login>)
    ensures Additions(m, c, t) + Removals(m, c, t) == ((m - t) - c) + ((c - t) - m)
  {
  }

  /** Idempotence: planning again against the applied state yields nothing to do. */
  lemma PlanConverges(m: set<Login>, c: set<Login>, t: set<Login>)
    ensures Additions(m, Applied(m, c, t), t) == {}
    ensures Removals(m, Applied(m, c, t), t) == {}
  {
  }

  /** A freshly created repository has no collaborators: grant all non-team maintainers, revoke nobody. */
  lemma EmptyRepositoryPlan(m: set<Login>, t: set<Login>)
    ensures Additions(m, {}, t) == m - t
    ensures Removals(m, {}, t) == {}
  {
  }

  lemma OrgInvitesSound(maintainers: set<Login>, members: set<Login>, self: Login, u: Login)
    ensures u in OrgInvites(maintainers, members, self)
      <==> u in maintainers && u !in members && Lower(u) != Lower(self)
  {
  }

  /** Once every invitation is a membership, the next organisation plan is empty. */
  lemma OrgInvitesConverge(maintainers: set<Login>, members: set<Login>, self: Login)
    ensures OrgInvites(maintainers, members + OrgInvites(maintainers, members, self), self) == {}
  {
  }

  /** Example: carol is protected by the internal team although she is no maintainer. */
  lemma TeamMemberKeptExample()
    ensures Additions({"alice", "bob"}, {"bob", "carol"}, {"carol"}) == {"alice"}
    ensures Removals({"alice", "bob"}, {"bob", "carol"}, {"carol"}) == {}
  {
    assert "alice" != "bob" && "alice" != "carol";
  }

  /** Example: eve is invited unless eve is the caller's own account. */
  lemma OrgInviteExample()
    ensures OrgInvites({"dave", "eve"}, {"dave"}, "admin") == {"eve"}
    ensures OrgInvites({"dave", "eve"}, {"dave"}, "Eve") == {}
  {
    assert Lower("eve") == "eve";
    assert Lower("Eve") == "eve";
    assert Lower("admin") == "admin";
    assert "eve" != "admin";
  }
}
