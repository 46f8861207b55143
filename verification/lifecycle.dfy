/** Mutations of the state and their side effects on the link tables:
    `RoleObserver::deleted`, and the create/update/delete outcomes the
    feature tests assert for projects, values and languages (the observers
    that produce those are outside this model, so the transitions below are
    defined by the outcomes the tests check). */
module Lifecycle {
  import opened Common
  import opened Links
  import opened Store
  import opened Cache

  /** Removes every link owned by the given rows of one model type, in all
      three link tables, as deleting those rows does. */
  function PurgeOwners(s: State, kind: ModelType, ids: set<Id>): (r: State)
    ensures forall l :: l in r.modelHasUsers <==> l in s.modelHasUsers && !(l.owner.kind == kind && l.owner.id in ids)
    ensures forall l :: l in r.modelHasLanguages <==> l in s.modelHasLanguages && !(l.owner.kind == kind && l.owner.id in ids)
    ensures forall l :: l in r.modelHasForms <==> l in s.modelHasForms && !(l.owner.kind == kind && l.owner.id in ids)
  {
    s.(modelHasUsers := DetachOwners(s.modelHasUsers, kind, ids),
       modelHasLanguages := DetachOwners(s.modelHasLanguages, kind, ids),
       modelHasForms := DetachOwners(s.modelHasForms, kind, ids))
  }

  // ------------------------------------------------------------ RoleObserver

  /** `RoleObserver::deleted`: `$role->users()->detach()`. */
  function DetachRoleUsers(t: Table, role: Id): (r: Table)
    ensures forall l :: l in r ==> l.owner != Owner(RoleModel, role)
    ensures forall l: Link :: l.owner != Owner(RoleModel, role) ==> (l in r <==> l in t)
  {
    DetachAll(t, Owner(RoleModel, role))
  }

  /** Deleting a role: the row goes and the observer detaches its users. */
  function DeleteRole(s: State, role: Id): (r: State)
    requires role in s.roles
    ensures r.roles == s.roles - {role}
    ensures Targets(r.modelHasUsers, Owner(RoleModel, role)) == {}
    ensures forall o :: o != Owner(RoleModel, role) ==> Targets(r.modelHasUsers, o) == Targets(s.modelHasUsers, o)
    ensures r.(roles := s.roles, modelHasUsers := s.modelHasUsers) == s
  {
    var r := s.(roles := s.roles - {role}, modelHasUsers := DetachRoleUsers(s.modelHasUsers, role));
    assert forall o, x :: o != Owner(RoleModel, role) ==>
      (Link(o, x) in r.modelHasUsers <==> Link(o, x) in s.modelHasUsers);
    r
  }

  /** The detach is idempotent, and a no-op for a role with no users. */
  lemma DetachRoleUsersIdempotent(t: Table, role: Id)
    ensures DetachRoleUsers(DetachRoleUsers(t, role), role) == DetachRoleUsers(t, role)
    ensures Targets(t, Owner(RoleModel, role)) == {} ==> DetachRoleUsers(t, role) == t
  {
    assert forall l :: l in t && l.owner == Owner(RoleModel, role) ==> l.target in Targets(t, Owner(RoleModel, role));
  }

  /** Deleting a role keeps the state well formed and free of orphan links. */
  lemma DeleteRolePreservesInvariants(s: State, role: Id)
    requires role in s.roles && Wf(s) && NoOrphans(s)
    ensures Wf(DeleteRole(s, role)) && NoOrphans(DeleteRole(s, role))
  {
  }

  /** From the user's side: detaching one role removes exactly that link,
      and syncing a user's roles down to `{r1}` leaves exactly `{r1}`. */
  lemma UserRoleDetachAndSync(t: Table, user: Id, r1: Id, r2: Id)
    requires Sources(t, RoleModel, user) == {r1, r2}
    ensures DetachFrom(t, RoleModel, user, {r2}) == t - {Link(Owner(RoleModel, r2), user)}
    ensures Sources(SyncFrom(t, RoleModel, user, {r1}), RoleModel, user) == {r1}
    ensures |Sources(SyncFrom(t, RoleModel, user, {r1}), RoleModel, user)| == 1
  {
    DetachFromOne(t, RoleModel, user, r2);
    SyncFromSources(t, RoleModel, user, {r1});
  }

  // ---------------------------------------------------------------- projects

  /** Creating a project in a team; the creator is attached to it. */
  function CreateProject(s: State, team: Id, creator: Id, p: Id): (r: State)
    requires team in s.teams && creator in s.users && p !in s.projects
    ensures r.projects == s.projects[p := team]
    ensures InProject(r, creator, p)
    ensures NoOrphans(s) ==> Targets(r.modelHasUsers, Owner(ProjectModel, p)) == {creator}
    ensures forall o :: o != Owner(ProjectModel, p) ==> Targets(r.modelHasUsers, o) == Targets(s.modelHasUsers, o)
    ensures r.(projects := s.projects, modelHasUsers := s.modelHasUsers) == s
  {
    var r := s.(projects := s.projects[p := team],
                modelHasUsers := Attach(s.modelHasUsers, Owner(ProjectModel, p), {creator}));
    AttachTargets(s.modelHasUsers, Owner(ProjectModel, p), {creator}, Owner(ProjectModel, p));
    AbsentProjectHasNoUsers(s, p);
    assert forall o, x :: o != Owner(ProjectModel, p) ==>
      (Link(o, x) in r.modelHasUsers <==> Link(o, x) in s.modelHasUsers);
    r
  }

  /** Without orphan links, a project id not in use owns no user link. */
  lemma AbsentProjectHasNoUsers(s: State, p: Id)
    requires p !in s.projects
    ensures NoOrphans(s) ==> Targets(s.modelHasUsers, Owner(ProjectModel, p)) == {}
  {
    if NoOrphans(s) {
      forall l | l in s.modelHasUsers ensures l.owner != Owner(ProjectModel, p) {
        assert OwnerExists(s, l.owner);
      }
    }
  }

  /** Creating a project keeps the state well formed and free of orphan
      links. */
  lemma CreateProjectPreservesInvariants(s: State, team: Id, creator: Id, p: Id)
    requires Wf(s) && NoOrphans(s) && team in s.teams && creator in s.users && p !in s.projects
    ensures Wf(CreateProject(s, team, creator, p)) && NoOrphans(CreateProject(s, team, creator, p))
  {
  }

  /** Right after creation the project has exactly one user. */
  lemma CreatedProjectHasOneUser(s: State, team: Id, creator: Id, p: Id)
    requires NoOrphans(s) && team in s.teams && creator in s.users && p !in s.projects
    ensures |Targets(CreateProject(s, team, creator, p).modelHasUsers, Owner(ProjectModel, p))| == 1
  {
  }

  /** Deleting a project: the project, its keys and their values go, and so
      do all link rows owned by the project or by those values. */
  function DeleteProject(s: State, p: Id): (r: State)
    requires p in s.projects
    ensures r.projects == s.projects - {p}
    ensures Targets(r.modelHasUsers, Owner(ProjectModel, p)) == {}
    ensures Targets(r.modelHasLanguages, Owner(ProjectModel, p)) == {}
    ensures forall v :: v in r.values <==> v in s.values && v !in ValuesOfProject(s, p)
    ensures forall v :: v in r.values ==> r.values[v] == s.values[v]
    ensures forall k :: k in r.keys <==> k in s.keys && s.keys[k] != p
    ensures forall k :: k in r.keys ==> r.keys[k] == s.keys[k]
    ensures forall v :: v in ValuesOfProject(s, p) ==>
      Targets(r.modelHasLanguages, Owner(ValueModel, v)) == {} && Targets(r.modelHasForms, Owner(ValueModel, v)) == {}
    ensures forall o :: o != Owner(ProjectModel, p) && !(o.kind == ValueModel && o.id in ValuesOfProject(s, p)) ==>
      Targets(r.modelHasUsers, o) == Targets(s.modelHasUsers, o) &&
      Targets(r.modelHasLanguages, o) == Targets(s.modelHasLanguages, o) &&
      Targets(r.modelHasForms, o) == Targets(s.modelHasForms, o)
    ensures r.(projects := s.projects, keys := s.keys, values := s.values, modelHasUsers := s.modelHasUsers,
               modelHasLanguages := s.modelHasLanguages, modelHasForms := s.modelHasForms) == s
  {
    var doomedKeys := KeysOf(s, p);
    var doomedValues := ValuesOfProject(s, p);
    var s1 := PurgeOwners(PurgeOwners(s, ProjectModel, {p}), ValueModel, doomedValues);
    var r := s1.(projects := s.projects - {p},
                 keys := s.keys - doomedKeys,
                 values := s.values - doomedValues);
    assert forall o, x :: o != Owner(ProjectModel, p) && !(o.kind == ValueModel && o.id in doomedValues) ==>
      (Link(o, x) in r.modelHasUsers <==> Link(o, x) in s.modelHasUsers) &&
      (Link(o, x) in r.modelHasLanguages <==> Link(o, x) in s.modelHasLanguages) &&
      (Link(o, x) in r.modelHasForms <==> Link(o, x) in s.modelHasForms);
    r
  }

  /** Project deletion leaves no dangling owner key and no orphan link. */
  lemma DeleteProjectPreservesInvariants(s: State, p: Id)
    requires p in s.projects && Wf(s) && NoOrphans(s)
    ensures Wf(DeleteProject(s, p)) && NoOrphans(DeleteProject(s, p))
  {
  }

  // ------------------------------------------------------------------ values

  /** Deleting a value: the row and its language and form links go. */
  function DeleteValue(s: State, v: Id): (r: State)
    requires v in s.values
    ensures r.values == s.values - {v}
    ensures Targets(r.modelHasLanguages, Owner(ValueModel, v)) == {}
    ensures Targets(r.modelHasForms, Owner(ValueModel, v)) == {}
    ensures forall o :: o != Owner(ValueModel, v) ==>
      Targets(r.modelHasLanguages, o) == Targets(s.modelHasLanguages, o) &&
      Targets(r.modelHasForms, o) == Targets(s.modelHasForms, o)
    ensures forall l :: l in r.modelHasUsers <==> l in s.modelHasUsers && l.owner != Owner(ValueModel, v)
    ensures NoOrphans(s) ==> r.modelHasUsers == s.modelHasUsers
    ensures r.(values := s.values, modelHasUsers := s.modelHasUsers,
               modelHasLanguages := s.modelHasLanguages, modelHasForms := s.modelHasForms) == s
  {
    var r := PurgeOwners(s, ValueModel, {v}).(values := s.values - {v});
    assert forall o, x :: o != Owner(ValueModel, v) ==>
      (Link(o, x) in r.modelHasLanguages <==> Link(o, x) in s.modelHasLanguages) &&
      (Link(o, x) in r.modelHasForms <==> Link(o, x) in s.modelHasForms);
    r
  }

  lemma DeleteValuePreservesInvariants(s: State, v: Id)
    requires v in s.values && Wf(s) && NoOrphans(s)
    ensures Wf(DeleteValue(s, v)) && NoOrphans(DeleteValue(s, v))
  {
  }

  /** Changing a value's text: the value stays under its key. */
  function UpdateValueText(s: State, v: Id, text: string): (r: State)
    requires v in s.values
    ensures v in r.values && r.values[v] == ValueRow(s.values[v].key, text)
    ensures r.values.Keys == s.values.Keys
    ensures forall k :: ValuesOfKey(r, k) == ValuesOfKey(s, k)
    ensures forall w :: w in s.values && w != v ==> r.values[w] == s.values[w]
    ensures r.(values := s.values) == s
  {
    s.(values := s.values[v := s.values[v].(text := text)])
  }

  /** Updating the text leaves the number of values under the key as it was. */
  lemma UpdateValueKeepsCount(s: State, v: Id, text: string)
    requires v in s.values
    ensures |ValuesOfKey(UpdateValueText(s, v, text), s.values[v].key)| == |ValuesOfKey(s, s.values[v].key)|
  {
  }

  // --------------------------------------------------------------- languages

  /** Deleting a language: the values attached to it are deleted with their
      links, every link pointing at the language goes, and so do the
      language's own form links. */
  function DeleteLanguage(s: State, lang: Id): (r: State)
    requires lang in s.languages
    ensures r.languages == s.languages - {lang}
    ensures forall v :: v in r.values <==> v in s.values && v !in ValuesOfLanguage(s, lang)
    ensures forall l :: l in r.modelHasLanguages ==> l.target != lang
    ensures Targets(r.modelHasForms, Owner(LanguageModel, lang)) == {}
    ensures forall v :: v in r.values ==> r.values[v] == s.values[v]
    ensures forall o :: o != Owner(LanguageModel, lang) && !(o.kind == ValueModel && o.id in ValuesOfLanguage(s, lang)) ==>
      Targets(r.modelHasUsers, o) == Targets(s.modelHasUsers, o) &&
      Targets(r.modelHasLanguages, o) == Targets(s.modelHasLanguages, o) - {lang} &&
      Targets(r.modelHasForms, o) == Targets(s.modelHasForms, o)
    ensures r.(languages := s.languages, values := s.values, modelHasUsers := s.modelHasUsers,
               modelHasLanguages := s.modelHasLanguages, modelHasForms := s.modelHasForms) == s
  {
    var doomed := ValuesOfLanguage(s, lang);
    var s1 := PurgeOwners(PurgeOwners(s, LanguageModel, {lang}), ValueModel, doomed);
    var r := s1.(languages := s.languages - {lang},
                 values := s.values - doomed,
                 modelHasLanguages := DetachTarget(s1.modelHasLanguages, lang));
    assert forall o, x :: o != Owner(LanguageModel, lang) && !(o.kind == ValueModel && o.id in doomed) ==>
      (Link(o, x) in r.modelHasUsers <==> Link(o, x) in s.modelHasUsers) &&
      (Link(o, x) in r.modelHasLanguages <==> Link(o, x) in s.modelHasLanguages && x != lang) &&
      (Link(o, x) in r.modelHasForms <==> Link(o, x) in s.modelHasForms);
    r
  }

  lemma DeleteLanguagePreservesInvariants(s: State, lang: Id)
    requires lang in s.languages && Wf(s) && NoOrphans(s)
    ensures Wf(DeleteLanguage(s, lang)) && NoOrphans(DeleteLanguage(s, lang))
  {
  }

  /** The language-deletion test: a value carrying the language and a form
      is deleted, and the language's link to the form is gone. */
  lemma DeleteLanguageRemovesValueAndFormLink(s: State, lang: Id, v: Id, f: Id)
    requires lang in s.languages && v in s.values
    requires Link(Owner(ValueModel, v), lang) in s.modelHasLanguages
    ensures v !in DeleteLanguage(s, lang).values
    ensures Link(Owner(LanguageModel, lang), f) !in DeleteLanguage(s, lang).modelHasForms
    ensures Link(Owner(ValueModel, v), f) !in DeleteLanguage(s, lang).modelHasForms
  {
    assert v in ValuesOfLanguage(s, lang);
  }

  // ------------------------------------------------- cached derivations stay valid

  /** No operation reparents a key or value, so the cached value -> project
      derivations of the surviving values stay equal to the live traversal. */
  lemma LifecycleKeepsValueCacheCoherent(s: State, c: CacheStore, p: Id, v: Id, lang: Id, text: string)
    requires Wf(s) && ValueCacheCoherent(s, c)
    ensures p in s.projects ==> ValueCacheCoherent(DeleteProject(s, p), c)
    ensures v in s.values ==> ValueCacheCoherent(DeleteValue(s, v), c)
    ensures v in s.values ==> ValueCacheCoherent(UpdateValueText(s, v, text), c)
    ensures lang in s.languages ==> ValueCacheCoherent(DeleteLanguage(s, lang), c)
  {
  }

  /** Project creation and deletion keep the per-project team cache
      coherent, provided the new project's id has no stale entry. */
  lemma LifecycleKeepsProjectCacheCoherent(s: State, c: CacheStore, team: Id, creator: Id, p: Id)
    requires Wf(s) && ProjectCacheCoherent(s, c)
    ensures p in s.projects ==> ProjectCacheCoherent(DeleteProject(s, p), c)
    ensures team in s.teams && creator in s.users && p !in s.projects && Tagged(ProjectTag(p), "team") !in c ==>
      ProjectCacheCoherent(CreateProject(s, team, creator, p), c)
  {
  }
}
