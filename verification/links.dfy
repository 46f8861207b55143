/** Polymorphic many-to-many link tables (`model_has_users`,
    `model_has_languages`, `model_has_forms`). A row is the triple
    `(model_type, model_id, <target>_id)`; the triple is unique, so a table is
    a set of rows. Eloquent's `attach`, `detach` and `sync` on a
    `morphToMany`/`morphedByMany` relation are pure transitions on that set. */
module Links {
  import opened Common

  /** The `model_type` discriminator: which kind of row owns a link. */
  datatype ModelType = TeamModel | ProjectModel | ValueModel | LanguageModel | RoleModel

  /** The `(model_type, model_id)` pair naming one side of a link. */
  datatype Owner = Owner(kind: ModelType, id: Id)

  datatype Link = Link(owner: Owner, target: Id)

  type Table = set<Link>

  /** The targets linked to one owner: what `$owner->relation` loads. */
  function Targets(t: Table, o: Owner): set<Id> {
    set l | l in t && l.owner == o :: l.target
  }

  /** `$owner->relation()->attach($ids)`. */
  function Attach(t: Table, o: Owner, ids: set<Id>): (r: Table)
    ensures t <= r
    ensures forall l :: l in r && l !in t ==> l.owner == o && l.target in ids
  {
    t + set x | x in ids :: Link(o, x)
  }

  /** `$owner->relation()->detach($ids)`. */
  function Detach(t: Table, o: Owner, ids: set<Id>): (r: Table)
    ensures r <= t
    ensures forall l :: l in t && l !in r ==> l.owner == o && l.target in ids
  {
    set l | l in t && !(l.owner == o && l.target in ids)
  }

  /** `$owner->relation()->detach()` with no argument: every link of `o`. */
  function DetachAll(t: Table, o: Owner): (r: Table)
    ensures r <= t
    ensures forall l :: l in t && l !in r ==> l.owner == o
  {
    set l | l in t && l.owner != o
  }

  /** Removes every link owned by any of several rows of one model type, as
      deleting those rows does. */
  function DetachOwners(t: Table, kind: ModelType, ids: set<Id>): (r: Table)
    ensures r <= t
    ensures forall l :: l in t && l !in r ==> l.owner.kind == kind && l.owner.id in ids
  {
    set l | l in t && !(l.owner.kind == kind && l.owner.id in ids)
  }

  /** Removes every link pointing at one target, as deleting the target does. */
  function DetachTarget(t: Table, target: Id): (r: Table)
    ensures r <= t
    ensures forall l :: l in t && l !in r ==> l.target == target
  {
    set l | l in t && l.target != target
  }

  /** `$owner->relation()->sync($ids)` the way Eloquent performs it: compare
      with the current targets, detach the ones no longer wanted, attach the
      new ones, and leave the rest alone. */
  function Sync(t: Table, o: Owner, ids: set<Id>): (r: Table)
  {
    var current := Targets(t, o);
    Attach(Detach(t, o, current - ids), o, ids - current)
  }

  /** Attaching adds exactly the given targets to the owner and touches no
      other owner. */
  lemma AttachTargets(t: Table, o: Owner, ids: set<Id>, o': Owner)
    ensures Targets(Attach(t, o, ids), o) == Targets(t, o) + ids
    ensures o' != o ==> Targets(Attach(t, o, ids), o') == Targets(t, o')
  {
    var r := Attach(t, o, ids);
    forall x | x in ids ensures x in Targets(r, o) {
      assert Link(o, x) in r;
    }
  }

  /** Detaching removes exactly the given targets from the owner and touches
      no other owner. */
  lemma DetachTargets(t: Table, o: Owner, ids: set<Id>, o': Owner)
    ensures Targets(Detach(t, o, ids), o) == Targets(t, o) - ids
    ensures o' != o ==> Targets(Detach(t, o, ids), o') == Targets(t, o')
  {
    var r := Detach(t, o, ids);
    forall x | x in Targets(t, o) - ids ensures x in Targets(r, o) {
      assert Link(o, x) in t;
      assert Link(o, x) in r;
    }
    if o' != o {
      forall x | x in Targets(t, o') ensures x in Targets(r, o') {
        assert Link(o', x) in r;
      }
    }
  }

  /** Detaching undoes attaching a target the owner did not have. */
  lemma {:induction false} DetachUndoesAttach(t: Table, o: Owner, ids: set<Id>)
    requires ids !! Targets(t, o)
    ensures Detach(Attach(t, o, ids), o, ids) == t
  {
    var r := Detach(Attach(t, o, ids), o, ids);
    forall l | l in t ensures l in r {
      if l.owner == o {
        assert l.target in Targets(t, o);
      }
    }
  }

  /** After a sync the owner's targets are exactly the requested set, every
      other owner keeps its links, and no row is duplicated or invented. */
  lemma {:induction false} SyncTargets(t: Table, o: Owner, ids: set<Id>, o': Owner)
    ensures Targets(Sync(t, o, ids), o) == ids
    ensures o' != o ==> Targets(Sync(t, o, ids), o') == Targets(t, o')
  {
    var current := Targets(t, o);
    var d := Detach(t, o, current - ids);
    DetachTargets(t, o, current - ids, o);
    DetachTargets(t, o, current - ids, o');
    AttachTargets(d, o, ids - current, o);
    AttachTargets(d, o, ids - current, o');
  }

  /** Eloquent's diff-based sync has the same effect as the reference
      definition "drop all of the owner's links, then attach the requested
      ones": targets already present and still wanted are kept as they are. */
  lemma {:induction false} SyncIsReplace(t: Table, o: Owner, ids: set<Id>)
    ensures Sync(t, o, ids) == Attach(DetachAll(t, o), o, ids)
  {
    var a := Sync(t, o, ids);
    var b := Attach(DetachAll(t, o), o, ids);
    forall l | l in a ensures l in b {
      if l.owner == o {
        SyncTargets(t, o, ids, o);
        assert l.target in Targets(a, o);
      }
    }
    forall l | l in b ensures l in a {
      if l.owner == o {
        assert l.target in ids;
        SyncTargets(t, o, ids, o);
        assert l.target in Targets(a, o);
      }
    }
  }

  /** Syncing twice to the same set is the same as syncing once. */
  lemma SyncIdempotent(t: Table, o: Owner, ids: set<Id>)
    ensures Sync(Sync(t, o, ids), o, ids) == Sync(t, o, ids)
  {
    SyncIsReplace(t, o, ids);
    SyncIsReplace(Sync(t, o, ids), o, ids);
    var s := Sync(t, o, ids);
    assert DetachAll(s, o) == DetachAll(t, o);
  }

  /** Attaching one target to an owner with none yields exactly one link, and
      detaching it again yields none (the attach/detach tests of the
      project-language and user-role endpoints). */
  lemma AttachOneThenDetach(t: Table, o: Owner, x: Id)
    requires Targets(t, o) == {}
    ensures Targets(Attach(t, o, {x}), o) == {x}
    ensures |Targets(Attach(t, o, {x}), o)| == 1
    ensures Targets(Detach(Attach(t, o, {x}), o, {x}), o) == {}
  {
    AttachTargets(t, o, {x}, o);
    DetachTargets(Attach(t, o, {x}), o, {x}, o);
  }

  /** Syncing an owner that has two targets down to one of them leaves
      exactly that one (the sync tests of the project-language, project-user
      and user-role endpoints). */
  lemma SyncDownToOne(t: Table, o: Owner, a: Id, b: Id)
    requires Targets(t, o) == {a, b}
    ensures Targets(Sync(t, o, {a}), o) == {a}
    ensures |Targets(Sync(t, o, {a}), o)| == 1
  {
    SyncTargets(t, o, {a}, o);
  }

  // Seen from the target side (`$user->roles()`, a `morphedByMany`), the
  // same table is read through the owners of one model type.

  /** The owners of one model type linked to a target. */
  function Sources(t: Table, kind: ModelType, target: Id): set<Id> {
    set l | l in t && l.target == target && l.owner.kind == kind :: l.owner.id
  }

  /** `$target->relation()->detach($ids)` from the target side. */
  function DetachFrom(t: Table, kind: ModelType, target: Id, ids: set<Id>): (r: Table)
    ensures r <= t
    ensures forall l :: l in t && l !in r ==> l.target == target && l.owner.kind == kind && l.owner.id in ids
    ensures Sources(r, kind, target) == Sources(t, kind, target) - ids
  {
    set l | l in t && !(l.target == target && l.owner.kind == kind && l.owner.id in ids)
  }

  /** `$target->relation()->sync($ids)` from the target side. */
  function SyncFrom(t: Table, kind: ModelType, target: Id, ids: set<Id>): (r: Table)
  {
    var current := Sources(t, kind, target);
    DetachFrom(t, kind, target, current - ids) + set x | x in ids - current :: Link(Owner(kind, x), target)
  }

  /** Detaching one owner from a target removes exactly that one row. */
  lemma DetachFromOne(t: Table, kind: ModelType, target: Id, x: Id)
    ensures DetachFrom(t, kind, target, {x}) == t - {Link(Owner(kind, x), target)}
  {
  }

  /** After a target-side sync, the target's owners of that type are exactly
      the requested ids, and rows of other targets or other model types are
      unchanged. */
  lemma {:induction false} SyncFromSources(t: Table, kind: ModelType, target: Id, ids: set<Id>)
    ensures Sources(SyncFrom(t, kind, target, ids), kind, target) == ids
    ensures forall l: Link :: l.target != target || l.owner.kind != kind ==>
      (l in SyncFrom(t, kind, target, ids) <==> l in t)
  {
    var r := SyncFrom(t, kind, target, ids);
    forall x | x in ids ensures x in Sources(r, kind, target) {
      var l := Link(Owner(kind, x), target);
      if x in Sources(t, kind, target) {
        var l0 :| l0 in t && l0.target == target && l0.owner.kind == kind && l0.owner.id == x;
        assert l0 == l;
        assert l in r;
      } else {
        assert l in r;
      }
    }
  }
}
