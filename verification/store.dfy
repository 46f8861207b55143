/** The persisted state the core reads: the entity tables, their owning
    foreign keys, and the three polymorphic link tables. Eloquent relations
    become traversals over this state. */
module Store {
  import opened Common
  import opened Links

  /** A `values` row: its owning key (`key_id`) and its text. */
  datatype ValueRow = ValueRow(key: Id, text: string)

  datatype State = State(
    users: map<Id, string>,     // user id -> e-mail address
    teams: set<Id>,
    projects: map<Id, Id>,      // project id -> owning team (`team_id`)
    keys: map<Id, Id>,          // key id -> owning project (`project_id`)
    values: map<Id, ValueRow>,
    languages: set<Id>,
    forms: map<Id, string>,     // form id -> name
    roles: set<Id>,
    modelHasUsers: Table,       // teams, projects and roles -> users
    modelHasLanguages: Table,   // teams, projects and values -> languages
    modelHasForms: Table        // teams, languages and values -> forms
  )

  /** Every owning foreign key points at an existing row. */
  predicate Wf(s: State) {
    && (forall p :: p in s.projects ==> s.projects[p] in s.teams)
    && (forall k :: k in s.keys ==> s.keys[k] in s.projects)
    && (forall v :: v in s.values ==> s.values[v].key in s.keys)
  }

  /** The row a link's `(model_type, model_id)` names exists. */
  predicate OwnerExists(s: State, o: Owner) {
    match o.kind
    case TeamModel => o.id in s.teams
    case ProjectModel => o.id in s.projects
    case ValueModel => o.id in s.values
    case LanguageModel => o.id in s.languages
    case RoleModel => o.id in s.roles
  }

  /** The model types that own rows in each link table: the relations the
      models declare (`HasUsers` on teams, projects and roles; `HasLanguages`
      on teams, projects and values; `HasForms` on teams, languages and
      values). */
  predicate UserOwnerKind(k: ModelType) {
    k in {TeamModel, ProjectModel, RoleModel}
  }

  predicate LanguageOwnerKind(k: ModelType) {
    k in {TeamModel, ProjectModel, ValueModel}
  }

  predicate FormOwnerKind(k: ModelType) {
    k in {TeamModel, LanguageModel, ValueModel}
  }

  /** No link row references a deleted owner or a deleted target, and each
      row's owner is of a type that declares the relation. */
  predicate NoOrphans(s: State) {
    && (forall l :: l in s.modelHasUsers ==>
          UserOwnerKind(l.owner.kind) && OwnerExists(s, l.owner) && l.target in s.users)
    && (forall l :: l in s.modelHasLanguages ==>
          LanguageOwnerKind(l.owner.kind) && OwnerExists(s, l.owner) && l.target in s.languages)
    && (forall l :: l in s.modelHasForms ==>
          FormOwnerKind(l.owner.kind) && OwnerExists(s, l.owner) && l.target in s.forms)
  }

  /** `$value->key->project`, followed live through the foreign keys;
      `None` where a row on the way is missing. */
  function ProjectOf(s: State, v: Id): (r: Option<Id>)
    ensures Wf(s) && v in s.values ==> r.Some? && r.value in s.projects
    ensures r.Some? ==> v in s.values && s.values[v].key in s.keys && s.keys[s.values[v].key] == r.value
    ensures r.Some? ==> r.value in s.projects
  {
    if v in s.values && s.values[v].key in s.keys && s.keys[s.values[v].key] in s.projects
    then Some(s.keys[s.values[v].key])
    else None
  }

  /** `$key->values`: the values whose `key_id` is `k`. */
  function ValuesOfKey(s: State, k: Id): set<Id> {
    set v | v in s.values && s.values[v].key == k
  }

  /** `$project->keys`. */
  function KeysOf(s: State, p: Id): set<Id> {
    set k | k in s.keys && s.keys[k] == p
  }

  /** `$project->values`, a has-many-through relation: the values of the
      project's keys. */
  function ValuesOfProject(s: State, p: Id): set<Id> {
    set v | v in s.values && s.values[v].key in KeysOf(s, p)
  }

  /** A project's values are exactly the values whose live
      value -> key -> project traversal ends at that project (the relation
      is read from a loaded project row, so the project exists). */
  lemma ValuesOfProjectIsTraversal(s: State, p: Id, v: Id)
    requires p in s.projects
    ensures v in ValuesOfProject(s, p) <==> ProjectOf(s, v) == Some(p)
  {
  }

  /** `$project->hasUser($user)`, equally `$user->hasProject($project)`: a
      `model_has_users` row links the project to the user. */
  predicate InProject(s: State, u: Id, p: Id) {
    u in Targets(s.modelHasUsers, Owner(ProjectModel, p))
  }

  /** Team membership, through the same link table. */
  predicate InTeam(s: State, u: Id, t: Id) {
    u in Targets(s.modelHasUsers, Owner(TeamModel, t))
  }

  /** `$form->teams`: existing teams that link the form in
      `model_has_forms`. The relation joins the `teams` table, so a link
      whose team row is gone is never returned. */
  function TeamsOfForm(s: State, f: Id): set<Id> {
    set l | l in s.modelHasForms && l.target == f && l.owner.kind == TeamModel && l.owner.id in s.teams
      :: l.owner.id
  }

  /** `$form->values`: existing values that link the form in the same
      table, joined with `values` in the same way. */
  function ValuesOfForm(s: State, f: Id): set<Id> {
    set l | l in s.modelHasForms && l.target == f && l.owner.kind == ValueModel && l.owner.id in s.values
      :: l.owner.id
  }

  /** `$team->forms`. */
  function FormsOfTeam(s: State, t: Id): set<Id> {
    Targets(s.modelHasForms, Owner(TeamModel, t))
  }

  /** Values attached to a language in `model_has_languages`. */
  function ValuesOfLanguage(s: State, lang: Id): set<Id> {
    set l | l in s.modelHasLanguages && l.target == lang && l.owner.kind == ValueModel :: l.owner.id
  }

  /** Team links and value links of a form live in one table and are told
      apart only by `model_type`: a team's form link is never read as a
      value's, even when the team and the value have the same id. Links
      whose owner row is gone are not returned. */
  lemma FormLinksSplitByModelType(s: State, f: Id, x: Id)
    ensures x in TeamsOfForm(s, f) <==> x in s.teams && Link(Owner(TeamModel, x), f) in s.modelHasForms
    ensures x in ValuesOfForm(s, f) <==> x in s.values && Link(Owner(ValueModel, x), f) in s.modelHasForms
  {
    if x in TeamsOfForm(s, f) {
      var l :| l in s.modelHasForms && l.target == f && l.owner.kind == TeamModel && l.owner.id in s.teams && l.owner.id == x;
      assert l == Link(Owner(TeamModel, x), f);
    }
    if x in ValuesOfForm(s, f) {
      var l :| l in s.modelHasForms && l.target == f && l.owner.kind == ValueModel && l.owner.id in s.values && l.owner.id == x;
      assert l == Link(Owner(ValueModel, x), f);
    }
  }
}
