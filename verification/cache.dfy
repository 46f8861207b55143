/** The memoised ancestor derivations. `Cache::sear` is Laravel's
    remember-forever: a stored entry is returned without calling the
    producer; on a miss the producer runs and a non-null result is stored.
    A `null` result is returned but reads as a miss next time. */
module Cache {
  import opened Common
  import opened Text
  import opened Links
  import opened Store

  /** A plain key, or a key inside a tag namespace (`Cache::tags($tag)`). */
  datatype CacheKey = Plain(name: string) | Tagged(tag: string, name: string)

  type CacheStore = map<CacheKey, Id>

  /** `Cache::sear($key, $producer)`, with `computed` standing for what the
      producer would return if it were called now. */
  function Sear(c: CacheStore, k: CacheKey, computed: Option<Id>): (r: (Option<Id>, CacheStore))
    ensures k in c ==> r.0 == Some(c[k]) && r.1 == c
    ensures k !in c ==> r.0 == computed
    ensures k in r.1 <==> k in c || computed.Some?
    ensures k in r.1 ==> r.0 == Some(r.1[k])
    ensures forall k' :: k' != k ==> (k' in r.1 <==> k' in c)
    ensures forall k' :: k' in c ==> k' in r.1 && r.1[k'] == c[k']
  {
    if k in c then (Some(c[k]), c)
    else if computed.Some? then (computed, c[k := computed.value])
    else (None, c)
  }

  /** Once an entry is stored, every later sear of that key returns it,
      whatever the producer would now compute: sear never recomputes. */
  lemma SearNeverRecomputes(c: CacheStore, k: CacheKey, first: Option<Id>, later: Option<Id>)
    requires Sear(c, k, first).0.Some?
    ensures Sear(Sear(c, k, first).1, k, later) == (Sear(c, k, first).0, Sear(c, k, first).1)
  {
  }

  // ------------------------------------------------------------------ cache keys

  /** `sprintf('%s:%d:team', 'forms', $id)`. */
  function FormTeamKey(f: Id): CacheKey {
    Plain("forms:" + Decimal(f) + ":team")
  }

  /** `sprintf('%s:%d:project', 'values', $id)`. */
  function ValueProjectKey(v: Id): CacheKey {
    Plain("values:" + Decimal(v) + ":project")
  }

  /** A string `pre + x + post` determines `x` when `pre` and `post` are
      fixed. */
  lemma InfixDetermined(pre: string, x: string, y: string, post: string)
    requires pre + x + post == pre + y + post
    ensures x == y
  {
    var a := pre + x + post;
    assert |x| == |y|;
    assert x == a[|pre|..|pre| + |x|];
  }

  /** Distinct forms get distinct cache keys. */
  lemma FormTeamKeyInjective(f1: Id, f2: Id)
    ensures FormTeamKey(f1) == FormTeamKey(f2) ==> f1 == f2
  {
    if FormTeamKey(f1) == FormTeamKey(f2) {
      InfixDetermined("forms:", Decimal(f1), Decimal(f2), ":team");
      DecimalInjective(f1, f2);
    }
  }

  /** Distinct values get distinct cache keys. */
  lemma ValueProjectKeyInjective(v1: Id, v2: Id)
    ensures ValueProjectKey(v1) == ValueProjectKey(v2) ==> v1 == v2
  {
    if ValueProjectKey(v1) == ValueProjectKey(v2) {
      InfixDetermined("values:", Decimal(v1), Decimal(v2), ":project");
      DecimalInjective(v1, v2);
    }
  }

  /** A form's key and a value's key never collide. */
  lemma FormAndValueKeysDisjoint(f: Id, v: Id)
    ensures FormTeamKey(f) != ValueProjectKey(v)
  {
    assert FormTeamKey(f).name[0] == 'f';
    assert ValueProjectKey(v).name[0] == 'v';
  }

  // --------------------------------------------------------- Value::getCachedProject

  /** `Value::getCachedProject`: the value's project, memoised under
      `values:<id>:project`. */
  function GetCachedProject(s: State, c: CacheStore, v: Id): (r: (Id, CacheStore))
    requires Wf(s) && v in s.values
    ensures ValueProjectKey(v) !in c ==> Some(r.0) == ProjectOf(s, v)
    ensures ValueProjectKey(v) in c ==> r.0 == c[ValueProjectKey(v)] && r.1 == c
    ensures ValueProjectKey(v) in r.1 && r.1[ValueProjectKey(v)] == r.0
    ensures forall k :: k in c ==> k in r.1 && r.1[k] == c[k]
    ensures forall k :: k != ValueProjectKey(v) ==> (k in r.1 <==> k in c)
  {
    var (p, c') := Sear(c, ValueProjectKey(v), ProjectOf(s, v));
    (p.value, c')
  }

  /** Every cached value -> project entry of a live value agrees with the
      live traversal. */
  predicate ValueCacheCoherent(s: State, c: CacheStore) {
    forall v :: v in s.values && ValueProjectKey(v) in c ==> ProjectOf(s, v) == Some(c[ValueProjectKey(v)])
  }

  /** Under a coherent cache the memoised project is the live project, and
      the call keeps the cache coherent. */
  lemma {:induction false} GetCachedProjectCoherent(s: State, c: CacheStore, v: Id)
    requires Wf(s) && v in s.values && ValueCacheCoherent(s, c)
    ensures Some(GetCachedProject(s, c, v).0) == ProjectOf(s, v)
    ensures ValueCacheCoherent(s, GetCachedProject(s, c, v).1)
  {
    var c' := GetCachedProject(s, c, v).1;
    forall w | w in s.values && ValueProjectKey(w) in c'
      ensures ProjectOf(s, w) == Some(c'[ValueProjectKey(w)])
    {
      ValueProjectKeyInjective(v, w);
    }
  }

  // ------------------------------------------------------------ Form::getCachedTeam

  /** A non-empty set of ids has a least element. */
  lemma {:induction false} LeastExists(xs: set<Id>)
    requires xs != {}
    ensures exists m :: m in xs && forall x :: x in xs ==> m <= x
    decreases xs
  {
    var y :| y in xs;
    if xs != {y} {
      LeastExists(xs - {y});
      var m :| m in xs - {y} && forall x :: x in xs - {y} ==> m <= x;
      var least := if y < m then y else m;
      forall x | x in xs ensures least <= x {
        if x != y {
          assert x in xs - {y};
        }
      }
    } else {
      assert forall x :: x in xs ==> y <= x;
    }
  }

  /** The smallest element of a non-empty set of ids. */
  function MinId(xs: set<Id>): (m: Id)
    requires xs != {}
    ensures m in xs && forall x :: x in xs ==> m <= x
  {
    LeastExists(xs);
    var m :| m in xs && forall x :: x in xs ==> m <= x;
    m
  }

  /** `$form->teams()->first()`: the first linked existing team, or `null`
      when the form has no link to an existing team. With no `orderBy` the database returns rows in
      primary-key order, taken here as the smallest team id. */
  function FirstTeam(s: State, f: Id): (r: Option<Id>)
    ensures r.None? <==> TeamsOfForm(s, f) == {}
    ensures r.Some? ==> r.value in TeamsOfForm(s, f) && forall t :: t in TeamsOfForm(s, f) ==> r.value <= t
  {
    var ts := TeamsOfForm(s, f);
    if ts == {} then None else Some(MinId(ts))
  }

  /** A `model_has_forms` row whose team no longer exists is invisible to
      `first()`: adding one never changes the answer, so such a link is
      never returned or cached. */
  lemma {:induction false} FirstTeamIgnoresDeletedTeams(s: State, f: Id, t: Id)
    requires t !in s.teams
    ensures FirstTeam(s, f) != Some(t)
    ensures FirstTeam(s.(modelHasForms := s.modelHasForms + {Link(Owner(TeamModel, t), f)}), f) == FirstTeam(s, f)
  {
    var s' := s.(modelHasForms := s.modelHasForms + {Link(Owner(TeamModel, t), f)});
    forall x ensures x in TeamsOfForm(s', f) <==> x in TeamsOfForm(s, f) {
      FormLinksSplitByModelType(s, f, x);
      FormLinksSplitByModelType(s', f, x);
    }
    assert TeamsOfForm(s', f) == TeamsOfForm(s, f);
  }

  /** `Form::getCachedTeam` as written: the memoised first team, or `None`
      where `first()` yields `null` against the declared `Team` return type
      (a `TypeError` in PHP). */
  function FormGetCachedTeam(s: State, c: CacheStore, f: Id): (r: (Option<Id>, CacheStore))
    ensures FormTeamKey(f) in c ==> r.0 == Some(c[FormTeamKey(f)]) && r.1 == c
    ensures FormTeamKey(f) !in c ==> r.0 == FirstTeam(s, f)
    ensures FormTeamKey(f) !in c && TeamsOfForm(s, f) == {} ==> r.0.None? && r.1 == c
    ensures FormTeamKey(f) !in c && r.0.Some? ==> r.1 == c[FormTeamKey(f) := r.0.value]
    ensures FormTeamKey(f) in c || r.0.None? ==> r.1 == c
    ensures forall k :: k in c ==> k in r.1 && r.1[k] == c[k]
  {
    Sear(c, FormTeamKey(f), FirstTeam(s, f))
  }

  /** A form with no team link and nothing cached makes the as-written
      method return `null` although it is declared to return a `Team`. */
  lemma FormWithoutTeamYieldsNull(s: State, c: CacheStore, f: Id)
    requires f in s.forms && TeamsOfForm(s, f) == {} && FormTeamKey(f) !in c
    ensures FormGetCachedTeam(s, c, f).0 == None
  {
  }

  /** The corrected contract: given the precondition that the form is
      linked to at least one team, a team always comes back, and on a miss
      it is one of the form's teams. */
  function FormGetCachedTeamChecked(s: State, c: CacheStore, f: Id): (r: (Id, CacheStore))
    requires TeamsOfForm(s, f) != {} || FormTeamKey(f) in c
    ensures FormTeamKey(f) !in c ==> r.0 in TeamsOfForm(s, f)
    ensures FormTeamKey(f) in c ==> r.0 == c[FormTeamKey(f)] && r.1 == c
    ensures FormTeamKey(f) !in c ==> r.1 == c[FormTeamKey(f) := r.0]
  {
    var (t, c') := FormGetCachedTeam(s, c, f);
    (t.value, c')
  }

  /** sear never invalidates: once a form's team is cached, detaching every
      team from the form still returns the cached team, which is then no
      longer linked to the form. */
  lemma FormTeamCacheSurvivesDetach(s: State, c: CacheStore, f: Id, t: Id)
    requires FormTeamKey(f) !in c && FirstTeam(s, f) == Some(t)
    ensures var c1 := FormGetCachedTeam(s, c, f).1;
      var s' := s.(modelHasForms := DetachOwners(s.modelHasForms, TeamModel, TeamsOfForm(s, f)));
      TeamsOfForm(s', f) == {} && FormGetCachedTeam(s', c1, f).0 == Some(t)
  {
    var s' := s.(modelHasForms := DetachOwners(s.modelHasForms, TeamModel, TeamsOfForm(s, f)));
    assert forall l :: l in s.modelHasForms && l.target == f && l.owner.kind == TeamModel && l.owner.id in s.teams ==>
      l.owner.id in TeamsOfForm(s, f);
  }

  // --------------------------------------------------------- Project::getCachedTeam

  /** `sprintf('%s:%', 'projects', $id)`: the trailing `%` has no conversion,
      so the id is never printed and every project gets the same tag. */
  function ProjectTagAsWritten(p: Id): string {
    "projects:"
  }

  /** `Project::getCachedTeam` as written:
      `Cache::tags($tag)->sear('team', fn() => $this->team)`. */
  function ProjectGetCachedTeamAsWritten(s: State, c: CacheStore, p: Id): (r: (Id, CacheStore))
    requires Wf(s) && p in s.projects
    ensures Tagged(ProjectTagAsWritten(p), "team") !in c ==> r.0 == s.projects[p]
    ensures Tagged(ProjectTagAsWritten(p), "team") in c ==> r.0 == c[Tagged(ProjectTagAsWritten(p), "team")]
    ensures Tagged(ProjectTagAsWritten(p), "team") !in c ==> r.1 == c[Tagged(ProjectTagAsWritten(p), "team") := r.0]
    ensures Tagged(ProjectTagAsWritten(p), "team") in c ==> r.1 == c
  {
    var (t, c') := Sear(c, Tagged(ProjectTagAsWritten(p), "team"), Some(s.projects[p]));
    (t.value, c')
  }

  /** The shared tag in action: after the first project's team is cached,
      a second project in another team is answered with the first
      project's team. */
  lemma ProjectTeamCacheLeaksAcrossProjects(s: State, c: CacheStore, p1: Id, p2: Id)
    requires Wf(s) && p1 in s.projects && p2 in s.projects
    requires s.projects[p1] != s.projects[p2]
    requires Tagged("projects:", "team") !in c
    ensures var c1 := ProjectGetCachedTeamAsWritten(s, c, p1).1;
      ProjectGetCachedTeamAsWritten(s, c1, p2).0 == s.projects[p1] != s.projects[p2]
  {
  }

  /** The tag with the id the format evidently meant to print:
      `projects:<id>`. */
  function ProjectTag(p: Id): string {
    "projects:" + Decimal(p)
  }

  /** Distinct projects get distinct tags. */
  lemma ProjectTagInjective(p1: Id, p2: Id)
    ensures ProjectTag(p1) == ProjectTag(p2) ==> p1 == p2
  {
    if ProjectTag(p1) == ProjectTag(p2) {
      InfixDetermined("projects:", Decimal(p1), Decimal(p2), "");
      DecimalInjective(p1, p2);
    }
  }

  /** `Project::getCachedTeam` keyed per project. */
  function ProjectGetCachedTeam(s: State, c: CacheStore, p: Id): (r: (Id, CacheStore))
    requires Wf(s) && p in s.projects
    ensures Tagged(ProjectTag(p), "team") !in c ==> r.0 == s.projects[p]
    ensures Tagged(ProjectTag(p), "team") in c ==> r.0 == c[Tagged(ProjectTag(p), "team")] && r.1 == c
    ensures Tagged(ProjectTag(p), "team") !in c ==> r.1 == c[Tagged(ProjectTag(p), "team") := r.0]
    ensures forall k :: k in c ==> k in r.1 && r.1[k] == c[k]
    ensures forall k :: k != Tagged(ProjectTag(p), "team") ==> (k in r.1 <==> k in c)
  {
    var (t, c') := Sear(c, Tagged(ProjectTag(p), "team"), Some(s.projects[p]));
    (t.value, c')
  }

  /** Every cached project -> team entry of a live project agrees with the
      project's `team_id`. */
  predicate ProjectCacheCoherent(s: State, c: CacheStore) {
    forall p :: p in s.projects && Tagged(ProjectTag(p), "team") in c ==> c[Tagged(ProjectTag(p), "team")] == s.projects[p]
  }

  /** With per-project tags the memoised team is the project's own team,
      and each call keeps the cache coherent, so a sequence of calls for
      different projects never mixes them up. */
  lemma {:induction false} ProjectGetCachedTeamCoherent(s: State, c: CacheStore, p: Id)
    requires Wf(s) && p in s.projects && ProjectCacheCoherent(s, c)
    ensures ProjectGetCachedTeam(s, c, p).0 == s.projects[p]
    ensures ProjectCacheCoherent(s, ProjectGetCachedTeam(s, c, p).1)
  {
    var c' := ProjectGetCachedTeam(s, c, p).1;
    forall q | q in s.projects && Tagged(ProjectTag(q), "team") in c'
      ensures c'[Tagged(ProjectTag(q), "team")] == s.projects[q]
    {
      ProjectTagInjective(p, q);
    }
  }
}
