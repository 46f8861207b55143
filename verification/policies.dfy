/** The three resource policies. `ValuePolicy` answers with a typed
    decision; `KeyPolicy` and `ProjectPolicy` answer with a boolean, as the
    source does. Sanctum's `tokenCan` and `User::hasPermission` are modelled
    as membership in the principal's ability and permission sets. */
module Policies {
  import opened Common
  import opened Links
  import opened Store

  /** The deny codes (`ErrorType`). `UserNotInTeam` is never produced by
      these three policies; it belongs to team-scoped policies outside this
      model. */
  datatype ErrorType = PermissionDenied | UserNotInProject | UserNotInTeam

  /** `true` or `Response::deny(null, code)`. */
  datatype Decision = Allow | Deny(reason: ErrorType)

  /** The authenticated user together with the abilities `tokenCan` reads
      and the permissions `User::hasPermission` grants. How `hasPermission`
      decides is not part of this model (it may itself consult the token),
      so `permissions` is simply the set it answers from. */
  datatype Principal = Principal(user: Id, tokenAbilities: set<string>, permissions: set<string>)

  // `PermissionType` constants consulted by ValuePolicy.
  const ValueViewAnyAbility: string := "view-any-value"
  const ValueViewAbility: string := "view-value"
  const ValueCreateAbility: string := "create-value"
  const ValueUpdateAbility: string := "update-value"
  const ValueDeleteAbility: string := "delete-value"

  // Permission names consulted by KeyPolicy.
  const KeyViewPermission: string := "view-key"
  const KeyCreatePermission: string := "create-key"
  const KeyUpdatePermission: string := "update-key"
  const KeyDeletePermission: string := "delete-key"

  predicate TokenCan(p: Principal, ability: string) {
    ability in p.tokenAbilities
  }

  predicate HasPermission(p: Principal, permission: string) {
    permission in p.permissions
  }

  /** The project a value belongs to, by the live value -> key -> project
      traversal (never the cached derivation). */
  function ValueProject(s: State, v: Id): (p: Id)
    requires Wf(s) && v in s.values
    ensures p in s.projects
    ensures ProjectOf(s, v) == Some(p)
  {
    ProjectOf(s, v).value
  }

  // ---------------------------------------------------------------- ValuePolicy

  /** `ValuePolicy::viewAny`. */
  function ValueViewAny(p: Principal): (r: Decision)
    ensures r == Allow <==> TokenCan(p, ValueViewAnyAbility)
    ensures r != Allow ==> r == Deny(PermissionDenied)
  {
    if !TokenCan(p, ValueViewAnyAbility) then Deny(PermissionDenied) else Allow
  }

  /** `ValuePolicy::create`: ability only, no membership stage. */
  function ValueCreate(p: Principal): (r: Decision)
    ensures r == Allow <==> TokenCan(p, ValueCreateAbility)
    ensures r != Allow ==> r == Deny(PermissionDenied)
  {
    if !TokenCan(p, ValueCreateAbility) then Deny(PermissionDenied) else Allow
  }

  /** The two-stage check shared by `view`, `update` and `delete`: the
      verb's ability first, then membership of the value's project. */
  function ValueInstanceCheck(s: State, p: Principal, ability: string, v: Id): (r: Decision)
    requires Wf(s) && v in s.values
    ensures r == Allow <==> TokenCan(p, ability) && InProject(s, p.user, ValueProject(s, v))
    ensures !TokenCan(p, ability) ==> r == Deny(PermissionDenied)
    ensures TokenCan(p, ability) && !InProject(s, p.user, ValueProject(s, v)) ==> r == Deny(UserNotInProject)
  {
    if !TokenCan(p, ability) then Deny(PermissionDenied)
    else if !InProject(s, p.user, ValueProject(s, v)) then Deny(UserNotInProject)
    else Allow
  }

  /** `ValuePolicy::view`. */
  function ValueView(s: State, p: Principal, v: Id): (r: Decision)
    requires Wf(s) && v in s.values
    ensures r == Allow <==> TokenCan(p, ValueViewAbility) && InProject(s, p.user, ValueProject(s, v))
    ensures !TokenCan(p, ValueViewAbility) ==> r == Deny(PermissionDenied)
    ensures TokenCan(p, ValueViewAbility) && !InProject(s, p.user, ValueProject(s, v)) ==> r == Deny(UserNotInProject)
  {
    ValueInstanceCheck(s, p, ValueViewAbility, v)
  }

  /** `ValuePolicy::update`. */
  function ValueUpdate(s: State, p: Principal, v: Id): (r: Decision)
    requires Wf(s) && v in s.values
    ensures r == Allow <==> TokenCan(p, ValueUpdateAbility) && InProject(s, p.user, ValueProject(s, v))
    ensures !TokenCan(p, ValueUpdateAbility) ==> r == Deny(PermissionDenied)
    ensures TokenCan(p, ValueUpdateAbility) && !InProject(s, p.user, ValueProject(s, v)) ==> r == Deny(UserNotInProject)
  {
    ValueInstanceCheck(s, p, ValueUpdateAbility, v)
  }

  /** `ValuePolicy::delete`. */
  function ValueDelete(s: State, p: Principal, v: Id): (r: Decision)
    requires Wf(s) && v in s.values
    ensures r == Allow <==> TokenCan(p, ValueDeleteAbility) && InProject(s, p.user, ValueProject(s, v))
    ensures !TokenCan(p, ValueDeleteAbility) ==> r == Deny(PermissionDenied)
    ensures TokenCan(p, ValueDeleteAbility) && !InProject(s, p.user, ValueProject(s, v)) ==> r == Deny(UserNotInProject)
  {
    ValueInstanceCheck(s, p, ValueDeleteAbility, v)
  }

  /** The ability stage short-circuits: without the verb's ability the answer
      is `PermissionDenied` in every state, whatever the memberships, so two
      states that differ only in links give the same answer. */
  lemma ValueAbilityShortCircuits(s1: State, s2: State, p: Principal, v1: Id, v2: Id)
    requires Wf(s1) && v1 in s1.values && Wf(s2) && v2 in s2.values
    requires !TokenCan(p, ValueViewAbility) && !TokenCan(p, ValueUpdateAbility) && !TokenCan(p, ValueDeleteAbility)
    ensures ValueView(s1, p, v1) == ValueView(s2, p, v2) == Deny(PermissionDenied)
    ensures ValueUpdate(s1, p, v1) == ValueUpdate(s2, p, v2) == Deny(PermissionDenied)
    ensures ValueDelete(s1, p, v1) == ValueDelete(s2, p, v2) == Deny(PermissionDenied)
  {
  }

  /** Abilities are verb-specific: a member holding only `view-value` may
      view but is refused update and delete with `PermissionDenied`. */
  lemma ValueAbilitiesAreVerbSpecific(s: State, p: Principal, v: Id)
    requires Wf(s) && v in s.values
    requires p.tokenAbilities == {ValueViewAbility}
    requires InProject(s, p.user, ValueProject(s, v))
    ensures ValueView(s, p, v) == Allow
    ensures ValueUpdate(s, p, v) == Deny(PermissionDenied)
    ensures ValueDelete(s, p, v) == Deny(PermissionDenied)
    ensures ValueViewAny(p) == Deny(PermissionDenied)
    ensures ValueCreate(p) == Deny(PermissionDenied)
  {
  }

  /** A member of the owning team who was never attached to the project is
      refused with `UserNotInProject`: team membership confers nothing. */
  lemma TeamMemberOutsideProjectRefused(s: State, p: Principal, v: Id)
    requires Wf(s) && v in s.values
    requires TokenCan(p, ValueViewAbility)
    requires InTeam(s, p.user, s.projects[ValueProject(s, v)])
    requires !InProject(s, p.user, ValueProject(s, v))
    ensures ValueView(s, p, v) == Deny(UserNotInProject)
  {
  }

  /** Membership is resolved through the value's key as it is now: moving
      the key to another project moves the decision with it. */
  lemma ValueMembershipFollowsLiveKey(s: State, p: Principal, v: Id, q: Id)
    requires Wf(s) && v in s.values && q in s.projects
    requires TokenCan(p, ValueViewAbility)
    requires InProject(s, p.user, q) && !InProject(s, p.user, ValueProject(s, v))
    ensures var s' := s.(keys := s.keys[s.values[v].key := q]);
      Wf(s') && ValueView(s', p, v) == Allow && ValueView(s, p, v) == Deny(UserNotInProject)
  {
    var s' := s.(keys := s.keys[s.values[v].key := q]);
    assert ValueProject(s', v) == q;
  }

  // ------------------------------------------------------------------ KeyPolicy

  /** `KeyPolicy::viewAny`: the same `view-key` permission as `view`, so
      there is no separate view-any permission: listing is allowed exactly
      to those who could view every key of a project they belong to, and it
      is the permission stage of the view pipeline alone. */
  function KeyViewAny(p: Principal): (r: bool)
    ensures forall s, k :: Wf(s) && k in s.keys ==>
      (KeyView(s, p, k) <==> r && InProject(s, p.user, s.keys[k]))
    ensures forall s, k :: Wf(s) && k in s.keys ==>
      (r <==> KeyTypedDecision(s, p, KeyViewPermission, k) != Deny(PermissionDenied))
  {
    HasPermission(p, KeyViewPermission)
  }

  /** `KeyPolicy::create`: the permission stage only; no membership of any
      project is consulted. */
  function KeyCreate(p: Principal): (r: bool)
    ensures forall s, k :: Wf(s) && k in s.keys ==>
      (r <==> KeyTypedDecision(s, p, KeyCreatePermission, k) != Deny(PermissionDenied))
    ensures forall s, k :: Wf(s) && k in s.keys && InProject(s, p.user, s.keys[k]) ==>
      (r <==> KeyTypedDecision(s, p, KeyCreatePermission, k) == Allow)
  {
    HasPermission(p, KeyCreatePermission)
  }

  /** `KeyPolicy::view`: the two-stage pipeline with its reason erased. It
      answers from `hasPermission` alone, never from the `tokenCan` set that
      ValuePolicy reads: any principal of the same user with the same
      `hasPermission` set gets the same answer. Allowing requires a
      `model_has_users` row linking the key's project to the user. */
  function KeyView(s: State, p: Principal, k: Id): (r: bool)
    requires Wf(s) && k in s.keys
    ensures r <==> KeyTypedDecision(s, p, KeyViewPermission, k) == Allow
    ensures forall q: Principal :: q.user == p.user && q.permissions == p.permissions ==>
      (r <==> KeyTypedDecision(s, q, KeyViewPermission, k) == Allow)
    ensures r ==> Link(Owner(ProjectModel, s.keys[k]), p.user) in s.modelHasUsers
  {
    HasPermission(p, KeyViewPermission) && InProject(s, p.user, s.keys[k])
  }

  /** `KeyPolicy::update`: as `view`, with `update-key`. */
  function KeyUpdate(s: State, p: Principal, k: Id): (r: bool)
    requires Wf(s) && k in s.keys
    ensures r <==> KeyTypedDecision(s, p, KeyUpdatePermission, k) == Allow
    ensures forall q: Principal :: q.user == p.user && q.permissions == p.permissions ==>
      (r <==> KeyTypedDecision(s, q, KeyUpdatePermission, k) == Allow)
    ensures r ==> Link(Owner(ProjectModel, s.keys[k]), p.user) in s.modelHasUsers
  {
    HasPermission(p, KeyUpdatePermission) && InProject(s, p.user, s.keys[k])
  }

  /** `KeyPolicy::delete`: as `view`, with `delete-key`. */
  function KeyDelete(s: State, p: Principal, k: Id): (r: bool)
    requires Wf(s) && k in s.keys
    ensures r <==> KeyTypedDecision(s, p, KeyDeletePermission, k) == Allow
    ensures forall q: Principal :: q.user == p.user && q.permissions == p.permissions ==>
      (r <==> KeyTypedDecision(s, q, KeyDeletePermission, k) == Allow)
    ensures r ==> Link(Owner(ProjectModel, s.keys[k]), p.user) in s.modelHasUsers
  {
    HasPermission(p, KeyDeletePermission) && InProject(s, p.user, s.keys[k])
  }

  /** The typed two-stage pipeline a key check would give if it reported
      reasons the way ValuePolicy does. */
  function KeyTypedDecision(s: State, p: Principal, permission: string, k: Id): Decision
    requires Wf(s) && k in s.keys
  {
    if !HasPermission(p, permission) then Deny(PermissionDenied)
    else if !InProject(s, p.user, s.keys[k]) then Deny(UserNotInProject)
    else Allow
  }

  /** KeyPolicy's boolean is the typed pipeline with its reason erased: it
      allows exactly when the pipeline does, and both deny reasons map to
      the same `false`, so a caller cannot tell them apart. */
  lemma KeyPolicyErasesReason(s: State, p: Principal, k: Id)
    requires Wf(s) && k in s.keys
    ensures KeyView(s, p, k) <==> KeyTypedDecision(s, p, KeyViewPermission, k) == Allow
    ensures KeyUpdate(s, p, k) <==> KeyTypedDecision(s, p, KeyUpdatePermission, k) == Allow
    ensures KeyDelete(s, p, k) <==> KeyTypedDecision(s, p, KeyDeletePermission, k) == Allow
    ensures !KeyView(s, p, k) ==>
      KeyTypedDecision(s, p, KeyViewPermission, k) in {Deny(PermissionDenied), Deny(UserNotInProject)}
  {
  }

  /** Holding the permission without being attached to the key's project is
      refused, exactly as lacking the permission is. */
  lemma KeyPermissionWithoutMembershipRefused(s: State, member: Principal, guest: Principal, k: Id)
    requires Wf(s) && k in s.keys
    requires HasPermission(guest, KeyViewPermission) && !InProject(s, guest.user, s.keys[k])
    requires !HasPermission(member, KeyViewPermission) && InProject(s, member.user, s.keys[k])
    ensures KeyView(s, guest, k) == KeyView(s, member, k) == false
    ensures KeyViewAny(guest)
  {
  }

  // -------------------------------------------------------------- ProjectPolicy

  /** `ProjectPolicy::viewAny`: every principal may list. */
  function ProjectViewAny(p: Principal): (r: bool)
    ensures r
  {
    true
  }

  /** `ProjectPolicy::create`: every principal may create. */
  function ProjectCreate(p: Principal): (r: bool)
    ensures r
  {
    true
  }

  /** `ProjectPolicy::delete`: `$project->hasUser($user)`, that is, a
      `model_has_users` row links the project to the user. */
  function ProjectDelete(s: State, p: Principal, proj: Id): (r: bool)
    requires proj in s.projects
    ensures r <==> Link(Owner(ProjectModel, proj), p.user) in s.modelHasUsers
  {
    InProject(s, p.user, proj)
  }

  /** `ProjectPolicy::update`: the same membership test as `delete`. */
  function ProjectUpdate(s: State, p: Principal, proj: Id): (r: bool)
    requires proj in s.projects
    ensures r <==> Link(Owner(ProjectModel, proj), p.user) in s.modelHasUsers
    ensures r == ProjectDelete(s, p, proj)
  {
    InProject(s, p.user, proj)
  }

  /** `ProjectPolicy::view`: the same membership test; view, update and
      delete never disagree. */
  function ProjectView(s: State, p: Principal, proj: Id): (r: bool)
    requires proj in s.projects
    ensures r <==> Link(Owner(ProjectModel, proj), p.user) in s.modelHasUsers
    ensures r == ProjectUpdate(s, p, proj) == ProjectDelete(s, p, proj)
  {
    InProject(s, p.user, proj)
  }

  /** Listing and creating need no membership at all: a user attached to
      no project at all is still allowed both, while being refused `view`
      on every project. */
  lemma ProjectListAndCreateNeedNoMembership(s: State, p: Principal)
    requires forall proj :: proj in s.projects ==> !InProject(s, p.user, proj)
    ensures ProjectViewAny(p) && ProjectCreate(p)
    ensures forall proj :: proj in s.projects ==> !ProjectView(s, p, proj)
  {
  }

  /** A project decision is a function of the user and the project's own
      user links alone: two states that agree on who is attached to the
      project, and two principals of the same user, whatever their
      abilities, permissions, teams or other links, get the same answers. */
  lemma ProjectDecisionReadsOnlyProjectUsers(s1: State, s2: State, p1: Principal, p2: Principal, proj: Id)
    requires proj in s1.projects && proj in s2.projects && p1.user == p2.user
    requires Targets(s1.modelHasUsers, Owner(ProjectModel, proj)) == Targets(s2.modelHasUsers, Owner(ProjectModel, proj))
    ensures ProjectView(s1, p1, proj) == ProjectView(s2, p2, proj)
    ensures ProjectUpdate(s1, p1, proj) == ProjectUpdate(s2, p2, proj)
    ensures ProjectDelete(s1, p1, proj) == ProjectDelete(s2, p2, proj)
  {
  }

  /** Project decisions consult no ability or permission: two principals
      for the same user get the same answers, and view, update and delete
      always agree. */
  lemma ProjectPolicyIgnoresAbilities(s: State, p1: Principal, p2: Principal, proj: Id)
    requires proj in s.projects && p1.user == p2.user
    ensures ProjectView(s, p1, proj) == ProjectView(s, p2, proj)
    ensures ProjectUpdate(s, p1, proj) == ProjectUpdate(s, p2, proj)
    ensures ProjectDelete(s, p1, proj) == ProjectDelete(s, p2, proj)
    ensures ProjectView(s, p1, proj) == ProjectUpdate(s, p1, proj) == ProjectDelete(s, p1, proj)
  {
  }

  /** Only the project's own user links matter: changing any team's user
      links (or any other owner's) leaves the decision unchanged, so team
      membership alone never grants access. */
  lemma ProjectPolicyOnlyReadsProjectLinks(s: State, team: Id, ids: set<Id>, p: Principal, proj: Id)
    requires proj in s.projects
    ensures var s' := s.(modelHasUsers := Sync(s.modelHasUsers, Owner(TeamModel, team), ids));
      ProjectView(s', p, proj) == ProjectView(s, p, proj)
  {
    SyncTargets(s.modelHasUsers, Owner(TeamModel, team), ids, Owner(ProjectModel, proj));
  }
}
