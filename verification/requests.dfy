/** The request validators whose rules are real predicates over the state:
    `FormUpdateRequest`, `Client\KeyIndexRequest` and
    `AuthUserUpdateRequest`. A validation result is the set of fields that
    fail. All three `authorize()` methods return `true`, so no request is
    refused before its rules run. */
module Requests {
  import opened Common
  import opened Text
  import opened Store
  import opened Cache

  /** `min:n` on a string field: at least `n` characters. */
  predicate MinLength(value: string, n: nat) {
    |value| >= n
  }

  // ---------------------------------------------------------- FormUpdateRequest

  /** Another form of the team, other than `f`, already has the name. */
  predicate NameTakenInTeam(s: State, team: Id, f: Id, name: string) {
    exists g :: g in FormsOfTeam(s, team) && g in s.forms && g != f && s.forms[g] == name
  }

  /** `FormUpdateRequest::rules` applied to the submitted `name`, giving
      the failing fields: `min:1`, and `unique:forms,name` restricted to the
      ids of the cached team's forms and ignoring the form's own id. The team
      comes from the corrected `getCachedTeam`, which needs the form to have
      a team (cached or linked). */
  function ValidateFormUpdate(s: State, c: CacheStore, f: Id, name: Option<string>): (r: (set<string>, CacheStore))
    requires f in s.forms
    requires TeamsOfForm(s, f) != {} || FormTeamKey(f) in c
    ensures r.0 <= {"name"}
    ensures "name" in r.0 <==>
      name.Some? &&
      (!MinLength(name.value, 1) || NameTakenInTeam(s, FormGetCachedTeamChecked(s, c, f).0, f, name.value))
    ensures r.1 == FormGetCachedTeamChecked(s, c, f).1
  {
    var (team, c') := FormGetCachedTeamChecked(s, c, f);
    match name
    case None => ({}, c')
    case Some(n) =>
      if !MinLength(n, 1) || NameTakenInTeam(s, team, f, n) then ({"name"}, c')
      else ({}, c')
  }

  /** Names of a team's forms are pairwise distinct. */
  predicate TeamFormNamesUnique(s: State, team: Id) {
    forall g, h :: g in FormsOfTeam(s, team) && h in FormsOfTeam(s, team) && g in s.forms && h in s.forms && g != h ==>
      s.forms[g] != s.forms[h]
  }

  /** Resubmitting a form's own non-empty name passes: its own row is
      ignored and no sibling shares the name. */
  lemma FormUpdateOwnNameAccepted(s: State, c: CacheStore, f: Id, team: Id)
    requires f in s.forms && |s.forms[f]| >= 1
    requires TeamsOfForm(s, f) != {} || FormTeamKey(f) in c
    requires FormGetCachedTeamChecked(s, c, f).0 == team
    requires TeamFormNamesUnique(s, team) && f in FormsOfTeam(s, team)
    ensures ValidateFormUpdate(s, c, f, Some(s.forms[f])).0 == {}
  {
  }

  /** A name held only by forms of other teams passes: uniqueness is
      checked among the team's forms only. */
  lemma FormUpdateNameOfOtherTeamAccepted(s: State, c: CacheStore, f: Id, team: Id, name: string)
    requires f in s.forms && |name| >= 1
    requires TeamsOfForm(s, f) != {} || FormTeamKey(f) in c
    requires FormGetCachedTeamChecked(s, c, f).0 == team
    requires forall g :: g in s.forms && s.forms[g] == name ==> g !in FormsOfTeam(s, team)
    ensures ValidateFormUpdate(s, c, f, Some(name)).0 == {}
  {
  }

  /** A name held by a sibling form of the same team fails on `name`. */
  lemma FormUpdateSiblingNameRejected(s: State, c: CacheStore, f: Id, g: Id, team: Id)
    requires f in s.forms && g in s.forms && g != f && |s.forms[g]| >= 1
    requires TeamsOfForm(s, f) != {} || FormTeamKey(f) in c
    requires FormGetCachedTeamChecked(s, c, f).0 == team && g in FormsOfTeam(s, team)
    ensures ValidateFormUpdate(s, c, f, Some(s.forms[g])).0 == {"name"}
  {
  }

  /** The name is optional: when it is absent no rule fires. */
  lemma FormUpdateWithoutNamePasses(s: State, c: CacheStore, f: Id)
    requires f in s.forms && TeamsOfForm(s, f) != {}
    ensures ValidateFormUpdate(s, c, f, None).0 == {}
  {
  }

  // ---------------------------------------------------------- KeyIndexRequest

  /** The relations always loaded, appended by `prepareRelations`. */
  const DefaultRelations: seq<string> := ["values", "values.languages", "values.forms"]

  /** The list the `Relations` rule accepts. */
  const AllowedRelations: set<string> := {"values", "values.languages", "values.forms"}

  /** `KeyIndexRequest::prepareRelations`: the comma-separated `relations`
      query parameter split on commas, followed by the three default
      relations; nothing is de-duplicated. An absent parameter and an empty
      one (which the empty-string conversion turns into `null`) both leave
      the collection empty, so only the defaults remain. */
  function PrepareRelations(input: Option<string>): (r: seq<string>)
    ensures |r| >= 3 && r[|r| - 3..] == DefaultRelations
    ensures input.None? || input == Some("") ==> r == DefaultRelations
    ensures input.Some? && input.value != "" ==> |r| >= 4
    ensures input.Some? && input.value != "" ==> Join(r[..|r| - 3], ',') == input.value
    ensures forall i :: 0 <= i < |r| - 3 ==> ',' !in r[i]
  {
    match input
    case None => DefaultRelations
    case Some(s) =>
      if s == "" then DefaultRelations
      else
        JoinSplit(s, ',');
        var parts := Split(s, ',');
        assert (parts + DefaultRelations)[..|parts|] == parts;
        parts + DefaultRelations
  }

  /** The `Relations` rule: every requested relation is on the allowed list. */
  predicate RelationsValid(relations: seq<string>) {
    forall i :: 0 <= i < |relations| ==> relations[i] in AllowedRelations
  }

  /** Appending the defaults never changes whether a list validates. */
  lemma {:induction false} AppendDefaultsValid(parts: seq<string>)
    ensures RelationsValid(parts + DefaultRelations) <==> RelationsValid(parts)
  {
    var r := parts + DefaultRelations;
    if RelationsValid(r) {
      forall i | 0 <= i < |parts| ensures parts[i] in AllowedRelations {
        assert r[i] == parts[i];
      }
    }
    if RelationsValid(parts) {
      forall i | 0 <= i < |r| ensures r[i] in AllowedRelations {
        if i < |parts| {
          assert r[i] == parts[i];
        } else {
          assert r[i] == DefaultRelations[i - |parts|];
        }
      }
    }
  }

  /** The prepared list validates exactly when every segment the caller
      sent is allowed; with no parameter the defaults alone always pass. */
  lemma PreparedRelationsValidity(input: Option<string>)
    ensures input.None? || input == Some("") ==> RelationsValid(PrepareRelations(input))
    ensures input.Some? && input.value != "" ==>
      (RelationsValid(PrepareRelations(input)) <==> RelationsValid(Split(input.value, ',')))
  {
    if input.None? || input == Some("") {
      AppendDefaultsValid([]);
      assert [] + DefaultRelations == DefaultRelations;
    } else {
      AppendDefaultsValid(Split(input.value, ','));
    }
  }

  /** The caller's segments come first, in order: a caller asking for
      `values` gets it twice. */
  lemma PrepareRelationsKeepsDuplicates()
    ensures PrepareRelations(Some("values")) == ["values"] + DefaultRelations
    ensures PrepareRelations(Some("values"))[0] == PrepareRelations(Some("values"))[1] == "values"
  {
    SplitWithoutSeparator("values", ',');
  }

  // ---------------------------------------------------- AuthUserUpdateRequest

  /** `Rule::unique('users', 'email')->ignore($ignore)`: no user row other
      than one whose id reads as `ignore` holds the e-mail address. */
  predicate EmailUniqueIgnoring(s: State, email: string, ignore: string) {
    forall u :: u in s.users && s.users[u] == email ==> Decimal(u) == ignore
  }

  /** `AuthUserUpdateRequest::rules` as written, for the authenticated user
      `me`: `name` `min:1`, `email` well-formed and unique ignoring the
      user's current e-mail address (where an id is expected), `password`
      `min:8`. All fields are optional. `isEmail` stands for Laravel's
      `email` rule. */
  function ValidateAuthUserUpdate(s: State, me: Id, name: Option<string>, email: Option<string>,
                                  password: Option<string>, isEmail: string -> bool): (errors: set<string>)
    requires me in s.users
    ensures errors <= {"name", "email", "password"}
    ensures "name" in errors <==> name.Some? && |name.value| < 1
    ensures "password" in errors <==> password.Some? && |password.value| < 8
    ensures "email" in errors <==>
      email.Some? && (!isEmail(email.value) || exists u :: u in s.users && s.users[u] == email.value && Decimal(u) != s.users[me])
  {
    (if name.Some? && !MinLength(name.value, 1) then {"name"} else {})
    + (if email.Some? && (!isEmail(email.value) || !EmailUniqueIgnoring(s, email.value, s.users[me]))
       then {"email"} else {})
    + (if password.Some? && !MinLength(password.value, 8) then {"password"} else {})
  }

  /** The mis-keyed exclusion excludes nothing: an address contains `@`, so
      it is never an id, and a user resubmitting their own address is told
      it is taken. */
  lemma OwnEmailRejectedAsWritten(s: State, me: Id, isEmail: string -> bool)
    requires me in s.users && '@' in s.users[me]
    ensures "email" in ValidateAuthUserUpdate(s, me, None, Some(s.users[me]), None, isEmail)
  {
    var e := s.users[me];
    var i :| 0 <= i < |e| && e[i] == '@';
    NonDigitIsNoDecimal(e, me);
  }

  /** The evidently intended rule: ignore the authenticated user's id. */
  function ValidateAuthUserUpdateById(s: State, me: Id, name: Option<string>, email: Option<string>,
                                      password: Option<string>, isEmail: string -> bool): (errors: set<string>)
    requires me in s.users
    ensures errors <= {"name", "email", "password"}
    ensures "name" in errors <==> name.Some? && |name.value| < 1
    ensures "password" in errors <==> password.Some? && |password.value| < 8
    ensures "email" in errors <==>
      email.Some? && (!isEmail(email.value) || exists u :: u in s.users && s.users[u] == email.value && u != me)
  {
    DecimalNamesOnlyItself(me);
    (if name.Some? && !MinLength(name.value, 1) then {"name"} else {})
    + (if email.Some? && (!isEmail(email.value) || !EmailUniqueIgnoring(s, email.value, Decimal(me)))
       then {"email"} else {})
    + (if password.Some? && !MinLength(password.value, 8) then {"password"} else {})
  }

  /** With the id excluded, resubmitting one's own well-formed address
      passes exactly when no other user holds it. */
  lemma OwnEmailAcceptedById(s: State, me: Id, isEmail: string -> bool)
    requires me in s.users && isEmail(s.users[me])
    ensures "email" !in ValidateAuthUserUpdateById(s, me, None, Some(s.users[me]), None, isEmail)
      <==> forall u :: u in s.users && u != me ==> s.users[u] != s.users[me]
  {
  }
}
