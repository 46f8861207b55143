# Authorization and membership core of lexicon-server, in Dafny

lexicon-server is a multi-tenant localization API. Teams own projects,
projects own translation keys, and keys own per-language values. Access to
these resources is decided by resource policies. A policy reads the
abilities of the caller's API token or the caller's role permissions, and
then the caller's membership of the owning project. Memberships and other
many-to-many associations live in three polymorphic link tables:
`model_has_users`, `model_has_languages` and `model_has_forms`. Each row is
`(model_type, model_id, target_id)`. Some ancestor derivations are memoised
with `Cache::sear`.

This project models that core as pure functions over immutable state:

- `common.dfy` (`Common`): row ids, and `Option` standing for PHP's `null`.
- `text.dfy` (`Text`): `%d` rendering of ids, and `explode`/`implode` on a
  separator, with their round trips.
- `links.dfy` (`Links`): a link table is a set of
  `Link(Owner(model_type, model_id), target)` rows. `attach`, `detach`, the
  argument-less `detach()` and Eloquent's diff-based `sync` are set
  transitions on it, from the owner side and from the target side.
- `store.dfy` (`Store`): the entity tables and their owning foreign keys.
  Also the traversals `value -> key -> project`, `$project->values` and
  `$form->teams`, membership, and the invariants `Wf` (no dangling foreign
  key) and `NoOrphans` (no link row without its owner or target).
- `policies.dfy` (`Policies`): `ValuePolicy` returns `Allow | Deny(reason)`.
  `KeyPolicy` and `ProjectPolicy` return `bool`, as in the source.
- `cache.dfy` (`Cache`): `sear` as an insert-once map, the cache-key formats,
  and the three memoised derivations `Value::getCachedProject`,
  `Form::getCachedTeam` and `Project::getCachedTeam`.
- `lifecycle.dfy` (`Lifecycle`): `RoleObserver::deleted`, plus project
  creation and deletion, value update and deletion, and language deletion.
  The project/value/language transitions are defined by what the feature
  tests assert, because the observers that produce them are not part of
  this model.
- `requests.dfy` (`Requests`): the rules of `FormUpdateRequest`,
  `Client\KeyIndexRequest` (with `prepareRelations`) and
  `AuthUserUpdateRequest`.

Modelling choices:

- Abilities and permissions are strings. `tokenCan` and `hasPermission`
  are set membership, each in its own set. The permission set is whatever
  `hasPermission` answers from; it may include token abilities.
- `KeyPolicy` uses the literal names `view-key`, `create-key`, `update-key`
  and `delete-key`.
- The `PermissionType` constants used by `ValuePolicy` are not shown in the
  source. `view-value`, `update-value` and `delete-value` are the strings
  the value tests grant. `create-value` follows the key naming. The spelling
  `view-any-value` for `VALUE_VIEW_ANY` is assumed. Every property proved
  here depends only on the five names being distinct.
- `sear` follows Laravel's remember-forever. A stored entry is returned
  without running the producer. On a miss the producer runs, and a non-null
  result is stored. A `null` result is returned but not kept.
- `teams()->first()` has no `orderBy`. It is taken as the smallest linked
  team id (primary-key order).
- The `explode` collection macro is taken to be PHP's `explode(',', …)`
  applied to the `relations` string. An absent parameter gives no segments.
- The `Relations` rule is taken to be "every element is on the allowed
  list".
- The `unique` rule's `ignore($x)` adds `id <> $x` to the lookup. The
  model reads that comparison as exact text: an id is excluded when its
  decimal rendering equals `$x`.

Where the tests and the code disagree, the code is modelled.
`tests/Feature/Api/ProjectControllerTest.php` expects the codes
`USER_NOT_IN_TEAM`, `USER_NOT_IN_PROJECT` and `PERMISSION_DENIED` from
project endpoints, but `app/Policies/ProjectPolicy.php` returns plain
booleans and consults no ability. The model follows `ProjectPolicy.php`.
The tests also mix `PermissionType::…` constants with raw ability strings,
because the shown files come from different revisions.

## Model

| member | source | states |
|---|---|---|
| Text.Decimal | app/Models/Form.php:62 | `%d` prints an id as a non-empty string of digits with no leading zero |
| Text.DecimalInjective | app/Models/Value.php:58 | two different ids never print as the same string |
| Text.NonDigitIsNoDecimal | app/Http/Requests/AuthUserUpdateRequest.php:34 | a string holding a non-digit (such as an e-mail address) is the rendering of no id |
| Text.Split | app/Http/Requests/Client/KeyIndexRequest.php:53 | splitting on a comma gives at least one segment, one more than the number of commas, and no segment contains a comma |
| Text.JoinSplit | app/Http/Requests/Client/KeyIndexRequest.php:53 | joining the segments with commas gives the original string back |
| Text.SplitJoin | app/Http/Requests/Client/KeyIndexRequest.php:53 | splitting a comma-join of comma-free segments gives the segments back |
| Text.SplitWithoutSeparator | app/Http/Requests/Client/KeyIndexRequest.php:53 | a string with no comma splits into exactly itself |
| Links.Attach | tests/Feature/ProjectUserControllerTest.php:20-36 | attach only adds rows, and only rows from this owner to the given targets |
| Links.Detach | tests/Feature/ProjectUserControllerTest.php:63-77 | detach only removes rows, and only this owner's rows to the given targets |
| Links.DetachAll | app/Observers/RoleObserver.php:17 | the argument-less detach removes only rows of this owner |
| Links.DetachOwners | tests/Feature/Api/ProjectControllerTest.php:207-222 | deleting rows removes only the links those rows own |
| Links.DetachTarget | tests/Feature/Api/LanguageControllerTest.php:198-209 | deleting a target removes only links that point at it |
| Links.AttachTargets | tests/Feature/TeamUserControllerTest.php:19-34 | after attach the owner's targets are the old ones plus the new ones; every other owner is unchanged |
| Links.DetachTargets | tests/Feature/TeamUserControllerTest.php:60-73 | after detach the owner's targets are the old ones minus the given ones; every other owner is unchanged |
| Links.DetachUndoesAttach | tests/Feature/ProjectLanguageControllerTest.php:64-79 | detaching targets that were just attached to an owner without them restores the table exactly |
| Links.SyncTargets | tests/Feature/TeamUserControllerTest.php:39-55 | after sync the owner's targets are exactly the requested set; every other owner keeps its links |
| Links.SyncIsReplace | tests/Feature/ProjectUserControllerTest.php:41-58 | the diff-based sync equals the reference "drop all the owner's links, then attach the requested ones" |
| Links.SyncIdempotent | tests/Feature/ProjectUserControllerTest.php:41-58 | syncing twice to the same set is the same as syncing once |
| Links.AttachOneThenDetach | tests/Feature/ProjectLanguageControllerTest.php:20-79 | attaching one language to a project with none gives exactly one link; detaching it gives none |
| Links.SyncDownToOne | tests/Feature/ProjectLanguageControllerTest.php:41-59 | syncing an owner with targets {a, b} to {a} leaves exactly {a}, one link |
| Links.DetachFrom | tests/Feature/UserRoleControllerTest.php:58-70 | a detach from the user's side removes only rows of that model type pointing at the user from the given owners, and leaves exactly the user's old owners minus those ids |
| Links.DetachFromOne | tests/Feature/UserRoleControllerTest.php:58-70 | detaching one role from a user removes exactly that one row |
| Links.SyncFromSources | tests/Feature/UserRoleControllerTest.php:38-53 | a sync from the user's side leaves exactly the requested roles; rows of other users or other model types are untouched |
| Store.ProjectOf | app/Models/Value.php:60 | a result is reached hop by hop through existing value, key and project rows (null where one is missing); in a well-formed state every value reaches an existing project |
| Store.ValuesOfProjectIsTraversal | app/Models/Project.php:85-88 | a project's values are exactly the values whose value -> key -> project traversal ends at it |
| Store.FormLinksSplitByModelType | app/Models/Form.php:42-55 | team links and value links of a form share one table and are told apart only by model type; a link counts only while its owner row exists |
| Policies.ValueProject | app/Policies/ValuePolicy.php:44 | the project checked is the live `value.key.project`, an existing project |
| Policies.ValueViewAny | app/Policies/ValuePolicy.php:22-29 | allows iff the token holds the view-any ability; otherwise denies with PERMISSION_DENIED |
| Policies.ValueCreate | app/Policies/ValuePolicy.php:57-64 | allows iff the token holds the create ability, with no membership check; otherwise PERMISSION_DENIED |
| Policies.ValueInstanceCheck | app/Policies/ValuePolicy.php:38-49 | the two-stage check: no ability gives PERMISSION_DENIED; ability without project membership gives USER_NOT_IN_PROJECT; allows iff both hold |
| Policies.ValueView | app/Policies/ValuePolicy.php:38-49 | view: PERMISSION_DENIED without `view-value`; USER_NOT_IN_PROJECT when not attached to the value's project; allow iff both hold |
| Policies.ValueUpdate | app/Policies/ValuePolicy.php:73-84 | the same two stages with `update-value` |
| Policies.ValueDelete | app/Policies/ValuePolicy.php:93-104 | the same two stages with `delete-value` |
| Policies.ValueAbilityShortCircuits | app/Policies/ValuePolicy.php:40-42 | without the verb's ability, any two states give the same PERMISSION_DENIED, whatever the memberships |
| Policies.ValueAbilitiesAreVerbSpecific | app/Policies/ValuePolicy.php:73-104 | a member holding only `view-value` may view, but update, delete, view-any and create are PERMISSION_DENIED |
| Policies.TeamMemberOutsideProjectRefused | tests/Feature/ValueControllerTest.php:114-125 | a team member never attached to the project gets USER_NOT_IN_PROJECT |
| Policies.ValueMembershipFollowsLiveKey | app/Policies/ValuePolicy.php:99 | moving the value's key to a project the user belongs to turns USER_NOT_IN_PROJECT into allow; no cached project is consulted |
| Policies.KeyViewAny | app/Policies/KeyPolicy.php:19-22 | there is no separate view-any permission: for every key, `view` holds iff `viewAny` holds and the user belongs to the key's project; `viewAny` is the permission stage of the view pipeline |
| Policies.KeyCreate | app/Policies/KeyPolicy.php:43-46 | create is the permission stage of the pipeline alone: no membership is consulted, and for a project member it agrees with the full pipeline |
| Policies.KeyView | app/Policies/KeyPolicy.php:31-35 | allows iff the reference two-stage pipeline (`hasPermission`, then project membership) allows; the answer depends on the `hasPermission` set, never on the `tokenCan` set ValuePolicy reads; allowing implies a `model_has_users` row for the key's project |
| Policies.KeyUpdate | app/Policies/KeyPolicy.php:55-59 | the same pipeline with `update-key`: only the `hasPermission` set is consulted, and allowing implies project membership |
| Policies.KeyDelete | app/Policies/KeyPolicy.php:68-72 | the same pipeline with `delete-key`: only the `hasPermission` set is consulted, and allowing implies project membership |
| Policies.KeyPolicyErasesReason | app/Policies/KeyPolicy.php:33-34 | each key decision is true iff the typed two-stage pipeline allows; both deny reasons collapse to the same false |
| Policies.KeyPermissionWithoutMembershipRefused | tests/Feature/KeyControllerTest.php:109-119 | permission without membership is refused, indistinguishably from membership without permission |
| Policies.ProjectListAndCreateNeedNoMembership | app/Policies/ProjectPolicy.php:19-45 | a user attached to no project is refused `view` on every project, yet may still list and create |
| Policies.ProjectView | app/Policies/ProjectPolicy.php:31-34 | allows iff a `model_has_users` row links the project to the user, and always agrees with `update` and `delete` |
| Policies.ProjectUpdate | app/Policies/ProjectPolicy.php:54-57 | allows iff a `model_has_users` row links the project to the user, and always agrees with `delete` |
| Policies.ProjectDelete | app/Policies/ProjectPolicy.php:66-69 | allows iff a `model_has_users` row links the project to the user |
| Policies.ProjectDecisionReadsOnlyProjectUsers | app/Policies/ProjectPolicy.php:31-69 | any two states that agree on the project's attached users, and any two principals of the same user, get the same view, update and delete answers |
| Policies.ProjectPolicyIgnoresAbilities | app/Policies/ProjectPolicy.php:31-69 | two principals of the same user get the same answers whatever their abilities; view, update and delete always agree |
| Policies.ProjectPolicyOnlyReadsProjectLinks | app/Policies/ProjectPolicy.php:33 | re-syncing any team's members never changes a project decision: team membership alone grants nothing |
| Cache.Sear | app/Models/Value.php:60 | a hit returns the stored entry and changes nothing; a miss returns the computed value and stores it unless null; other entries untouched |
| Cache.SearNeverRecomputes | app/Models/Project.php:107 | once a key holds an entry, later sears return it whatever the producer would compute |
| Cache.FormTeamKeyInjective | app/Models/Form.php:62 | `forms:<id>:team` differs for different form ids |
| Cache.ValueProjectKeyInjective | app/Models/Value.php:58 | `values:<id>:project` differs for different value ids |
| Cache.FormAndValueKeysDisjoint | app/Models/Form.php:62 | a form key and a value key never collide |
| Cache.GetCachedProject | app/Models/Value.php:56-61 | on a miss the live value -> key -> project result, then stored; on a hit the stored project, cache unchanged |
| Cache.GetCachedProjectCoherent | app/Models/Value.php:56-61 | with a cache that agrees with the live traversal, the result is the live project and the cache still agrees afterwards |
| Cache.FirstTeam | app/Models/Form.php:64 | null iff the form has no link to an existing team; otherwise the first (smallest-id) such team |
| Cache.FirstTeamIgnoresDeletedTeams | app/Models/Form.php:44 | a link to a team whose row is gone never becomes the first team, and adding one never changes the answer |
| Cache.FormGetCachedTeam | app/Models/Form.php:60-65 | as written: on a miss the first linked team, stored under `forms:<id>:team`; null for a form without teams, and then nothing is stored; on a hit the stored team with the cache unchanged |
| Cache.FormWithoutTeamYieldsNull | app/Models/Form.php:64 | a teamless form with no cache entry yields null despite the `Team` return type |
| Cache.FormGetCachedTeamChecked | app/Models/Form.php:57-65 | given a link to an existing team or a cache entry, a team always comes back; on a miss it is one of the form's existing teams and is stored under `forms:<id>:team` |
| Cache.FormTeamCacheSurvivesDetach | app/Models/Form.php:64 | after the team is cached, detaching all the form's teams still returns the old team: sear never invalidates |
| Cache.ProjectGetCachedTeamAsWritten | app/Models/Project.php:103-108 | as written: tag `projects:` for every project; on a miss the project's own team, stored under that shared tag; on a hit whatever is stored, with the cache unchanged |
| Cache.ProjectTeamCacheLeaksAcrossProjects | app/Models/Project.php:105-107 | with the shared tag, a second project in another team is answered with the first project's team |
| Cache.ProjectTagInjective | app/Models/Project.php:105 | the intended `projects:<id>` tag differs for different projects |
| Cache.ProjectGetCachedTeam | app/Models/Project.php:103-108 | per-project tag: on a miss the project's `team_id`, then stored; on a hit the stored team |
| Cache.ProjectGetCachedTeamCoherent | app/Models/Project.php:103-108 | with a coherent cache the result is the project's own team and the cache stays coherent |
| Lifecycle.PurgeOwners | tests/Feature/Api/ProjectControllerTest.php:207-222 | removes from all three link tables exactly the rows owned by the deleted rows |
| Lifecycle.DetachRoleUsers | app/Observers/RoleObserver.php:15-18 | no link owned by the role remains; every other link is unchanged |
| Lifecycle.DeleteRole | app/Observers/RoleObserver.php:15-18 | the role row goes, users stay, the role has no users, every other owner keeps its users, and nothing else in the state changes |
| Lifecycle.DetachRoleUsersIdempotent | app/Observers/RoleObserver.php:17 | detaching twice equals detaching once; for a role without users it changes nothing |
| Lifecycle.DeleteRolePreservesInvariants | app/Observers/RoleObserver.php:17 | role deletion keeps foreign keys intact and leaves no orphan link |
| Lifecycle.UserRoleDetachAndSync | tests/Feature/UserRoleControllerTest.php:38-70 | for a user with roles {r1, r2}, detaching r2 removes one row, and syncing to {r1} leaves exactly one role |
| Lifecycle.CreateProject | tests/Feature/ProjectUserControllerTest.php:24-28 | the project joins its team and the creator is attached (without orphans, as its only user); every other owner keeps its users and nothing else in the state changes |
| Lifecycle.CreateProjectPreservesInvariants | tests/Feature/ProjectUserControllerTest.php:24-28 | project creation keeps foreign keys intact and leaves no orphan link |
| Lifecycle.AbsentProjectHasNoUsers | tests/Feature/Api/ProjectControllerTest.php:199-204 | without orphan links, an unused project id owns no user link |
| Lifecycle.CreatedProjectHasOneUser | tests/Feature/Api/ProjectControllerTest.php:199-205 | right after creation the project has exactly one user |
| Lifecycle.DeleteProject | tests/Feature/Api/ProjectControllerTest.php:207-222 | exactly the project, its keys and their values go, and the links they own; surviving rows are unchanged, every other owner keeps its links, and no other table changes |
| Lifecycle.DeleteProjectPreservesInvariants | tests/Feature/Api/ProjectControllerTest.php:207-222 | project deletion keeps foreign keys intact and leaves no orphan link |
| Lifecycle.DeleteValue | tests/Feature/ValueControllerTest.php:93-108 | the value goes with the links it owns in all three tables; every other owner's links are unchanged, the user table is untouched when there are no orphans, and nothing else in the state changes |
| Lifecycle.DeleteValuePreservesInvariants | tests/Feature/ValueControllerTest.php:93-108 | value deletion keeps foreign keys intact and leaves no orphan link |
| Lifecycle.UpdateValueText | tests/Feature/ValueControllerTest.php:61-69 | the value gets the new text under the same key; every other value row and the rest of the state are unchanged |
| Lifecycle.UpdateValueKeepsCount | tests/Feature/ValueControllerTest.php:57-69 | the number of values under the key is unchanged by a text update |
| Lifecycle.DeleteLanguage | tests/Feature/Api/LanguageControllerTest.php:198-209 | the language and the values carrying it go; no link points at it and it owns no form link; every surviving owner loses only its link to this language, and no other table changes |
| Lifecycle.DeleteLanguagePreservesInvariants | tests/Feature/Api/LanguageControllerTest.php:198-209 | language deletion keeps foreign keys intact and leaves no orphan link |
| Lifecycle.DeleteLanguageRemovesValueAndFormLink | tests/Feature/Api/LanguageControllerTest.php:170-210 | a value carrying the language is deleted, and the language-form and value-form links are gone |
| Lifecycle.LifecycleKeepsValueCacheCoherent | app/Models/Value.php:56-61 | no lifecycle operation reparents a value, so cached value -> project entries keep matching the live traversal |
| Lifecycle.LifecycleKeepsProjectCacheCoherent | app/Models/Project.php:103-108 | creating or deleting projects keeps the per-project team cache coherent, given no stale entry for a new id |
| Requests.ValidateFormUpdate | app/Http/Requests/FormUpdateRequest.php:26-42 | `name` fails iff present and either empty or held by another form of the cached team |
| Requests.FormUpdateOwnNameAccepted | app/Http/Requests/FormUpdateRequest.php:39 | resubmitting the form's own non-empty name passes, because its own id is ignored |
| Requests.FormUpdateNameOfOtherTeamAccepted | app/Http/Requests/FormUpdateRequest.php:35-38 | a name held only by other teams' forms passes |
| Requests.FormUpdateSiblingNameRejected | app/Http/Requests/FormUpdateRequest.php:34-39 | a name held by a sibling form of the same team fails on `name` |
| Requests.FormUpdateWithoutNamePasses | app/Http/Requests/FormUpdateRequest.php:32-40 | with no name submitted no rule fires |
| Requests.PrepareRelations | app/Http/Requests/Client/KeyIndexRequest.php:51-62 | the result ends with the three defaults; for a non-empty parameter the segments before them are comma-free and join back to the caller's string; an absent or empty parameter gives the defaults alone |
| Requests.AppendDefaultsValid | app/Http/Requests/Client/KeyIndexRequest.php:55-57 | appending the three defaults never changes whether the list passes the `Relations` rule |
| Requests.PreparedRelationsValidity | app/Http/Requests/Client/KeyIndexRequest.php:25-36 | for a non-empty parameter the prepared list validates iff every caller segment is allowed; an absent or empty parameter always validates |
| Requests.PrepareRelationsKeepsDuplicates | app/Http/Requests/Client/KeyIndexRequest.php:53-57 | a caller asking for `values` gets it in the first two places: the merge does not de-duplicate |
| Requests.ValidateAuthUserUpdate | app/Http/Requests/AuthUserUpdateRequest.php:26-40 | as written: name fails iff shorter than 1, password iff shorter than 8, email iff malformed or held by a user whose id does not read as the current e-mail |
| Requests.OwnEmailRejectedAsWritten | app/Http/Requests/AuthUserUpdateRequest.php:34 | a user resubmitting their own address (which contains `@`) is told it is taken |
| Requests.ValidateAuthUserUpdateById | app/Http/Requests/AuthUserUpdateRequest.php:34 | corrected: email fails iff malformed or held by another user |
| Requests.OwnEmailAcceptedById | app/Http/Requests/AuthUserUpdateRequest.php:34 | with the id ignored, one's own well-formed address passes iff no other user holds it |

## Findings

| source | as written | input that shows it | evidently intended | confidence | as-written member | corrected member |
|---|---|---|---|---|---|---|
| app/Models/Project.php:105 | the tag format `'%s:%'` has no conversion for the id, so every project shares the tag `projects:` and the key `team` | two projects in different teams: after the first one's team is cached, the second gets the first one's team | tag `projects:<id>` | high; not executed | Cache.ProjectTeamCacheLeaksAcrossProjects | Cache.ProjectGetCachedTeamCoherent |
| app/Models/Form.php:64 | `teams()->first()` is null for a form with no team link, against the declared `Team` return type | a form with no `model_has_forms` team row and no cache entry | a form always has a team when its team is asked for | medium; not executed | Cache.FormWithoutTeamYieldsNull | Cache.FormGetCachedTeamChecked |
| app/Http/Requests/AuthUserUpdateRequest.php:34 | `ignore()` receives the current e-mail, which is compared with the `id` column and, read as exact text, matches no row | an authenticated user resubmitting their own e-mail address, for an address not starting with a digit | ignore the authenticated user's id | high; not executed | Requests.OwnEmailRejectedAsWritten | Requests.OwnEmailAcceptedById |

## Left out

- HTTP controllers, routes and JSON resources: they only delegate and shape responses.
- `AuthService`: password hashing and token issuance are library calls.
- `authorize()` of the three requests always returns `true`. The model therefore has no authorization step for requests.
- Sanctum's `tokenCan` internals and `User::hasPermission`, including the `*` wildcard ability: they are plain set membership here.
- The role -> permission mapping behind `hasPermission` is not shown. Each principal carries its permission set directly.
- Cache backends, TTLs and tag flushing: `sear` is an insert-once map. No operation here flushes a tag.
- Eloquent, SQL and concurrency (transactions, row locking): the model is sequential, and each transition is atomic by construction.
- Links.Attach: a link table is a set, because the triple is unique. Re-attaching an existing pair is therefore a no-op rather than a duplicate-key error.
- Cache.ProjectGetCachedTeamAsWritten: the trailing `%` is read as printing nothing. Under PHP 8, `sprintf` raises a `ValueError` for it instead. Either way the id never reaches the tag.
- Cache.FirstTeam: "first" assumes primary-key order, which the database does not promise without `orderBy`.
- Requests.ValidateFormUpdate: it uses the corrected `getCachedTeam`. The crash of the as-written code on a teamless form is stated only by Cache.FormWithoutTeamYieldsNull.
- Requests.ValidateAuthUserUpdate: the `email` format rule is a parameter, not Laravel's implementation.
- Requests.ValidateAuthUserUpdate: `min` is character length. Laravel's conversion of empty strings to `null` is not modelled.
- Requests.ValidateAuthUserUpdate: the database's comparison of the integer `id` with the string given to `ignore()` is fixed to exact decimal text. MySQL instead converts the string's numeric prefix, so `7abc@x.org` would exclude user 7. PostgreSQL rejects the comparison outright.
- Requests.ValidateFormUpdate: a submitted empty name fails `min:1` here. In Laravel the validator skips `min` and `unique` on a present empty string, so the model's `Some("")` stands for the `null` that the empty-string conversion produces.
- Requests.PrepareRelations: the `explode` macro and the `Relations` rule are not shown. They are taken as comma splitting and allowed-list membership.
- Requests.PrepareRelations: an empty `relations` parameter is treated as absent, because the empty-string conversion turns it into `null` before `prepareRelations` runs.
- Policies.KeyView: `User::hasPermission` is not shown. The key tests grant key permissions as Sanctum token abilities, so `hasPermission` evidently consults the token. The `permissions` set therefore stands for whatever `hasPermission` answers from, token included. The clause that the `tokenCan` set is not consulted only separates KeyPolicy's lookup from ValuePolicy's. It does not claim that tokens are irrelevant to key access. The same holds for Policies.KeyUpdate, Policies.KeyDelete, Policies.KeyViewAny and Policies.KeyCreate.
- The observers for project, value and language creation and deletion are not part of this model. Their effects come from the feature tests.
- Lifecycle.DeleteProject: deleting the project's keys and values follows the owner cascade. The tests only check the link rows.
- Lifecycle.DeleteLanguage: every value linked to the language is deleted, as the test shows. Whether values carrying several languages survive is not shown.
- Deleting teams, users, keys or forms: no core file defines these, so they have no transition here.
- The duplicate-name check when storing a form (`FormStoreRequest`) is not shown. Only the update rule is modelled.
- The team-scoped codes `USER_NOT_IN_TEAM` come from team and language policies that are not part of this model.
