/**
 * The revisionable base model: the per-type policy that decides which
 * columns are tracked, and the save wrapped in a before/after pair that
 * snapshots the record, filters the dirty columns and emits one revision
 * row per tracked change.
 *
 * The framework's inputs are plain values here: `original`, `attributes`,
 * `exists`, the class name and primary key are fields of `Model`; the
 * result of `getDirty()`, the outcome of the delegated save and the id of
 * the current user are arguments of `Save`.
 */
module Revisionable {
  import opened Base
  import opened Revision

  /** `$revisionEnabled`, `$keepRevisionOf` and `$dontKeepRevisionOf` */
  datatype Policy = Policy(revisionEnabled: bool, keepRevisionOf: seq<string>, dontKeepRevisionOf: seq<string>)

  /** `isRevisionable($key)`: listed in `keepRevisionOf`; otherwise not listed in
      `dontKeepRevisionOf` and no column is listed in `keepRevisionOf` */
  function IsRevisionable(p: Policy, key: string): (r: bool)
    ensures r <==> key in p.keepRevisionOf || (|p.keepRevisionOf| == 0 && key !in p.dontKeepRevisionOf)
    ensures |p.keepRevisionOf| > 0 ==> (r <==> key in p.keepRevisionOf)
  {
    if key in p.keepRevisionOf then true
    else if key in p.dontKeepRevisionOf then false
    else |p.keepRevisionOf| == 0
  }

  /** The argument of `disableRevisionField`: a single column or an array of them */
  datatype FieldSelection = OneField(name: string) | ManyFields(names: seq<string>)

  /** The columns a selection names */
  function Selected(f: FieldSelection): seq<string> {
    match f
    case OneField(name) => [name]
    case ManyFields(names) => names
  }

  /** `disableRevisionField($field)`: an array is merged in front of the
      exclusion list, a single column is appended to it */
  function DisableRevisionField(p: Policy, f: FieldSelection): (r: Policy)
    ensures r.revisionEnabled == p.revisionEnabled && r.keepRevisionOf == p.keepRevisionOf
    ensures forall x :: x in r.dontKeepRevisionOf <==> x in p.dontKeepRevisionOf || x in Selected(f)
    ensures |r.dontKeepRevisionOf| == |p.dontKeepRevisionOf| + |Selected(f)|
    ensures f.ManyFields? ==> r.dontKeepRevisionOf[..|f.names|] == f.names
    ensures f.ManyFields? ==> r.dontKeepRevisionOf[|f.names|..] == p.dontKeepRevisionOf
    ensures f.OneField? ==> r.dontKeepRevisionOf[..|p.dontKeepRevisionOf|] == p.dontKeepRevisionOf
    ensures f.OneField? ==> r.dontKeepRevisionOf[|p.dontKeepRevisionOf|] == f.name
  {
    match f
    case ManyFields(names) => p.(dontKeepRevisionOf := names + p.dontKeepRevisionOf)
    case OneField(name) => p.(dontKeepRevisionOf := p.dontKeepRevisionOf + [name])
  }

  /** After disabling, a selected column is tracked only if it is explicitly
      kept, and every other column keeps its status */
  lemma DisabledFieldIsNotRevisionable(p: Policy, f: FieldSelection, x: string)
    ensures x in Selected(f) ==>
              (IsRevisionable(DisableRevisionField(p, f), x) <==> x in p.keepRevisionOf)
    ensures x !in Selected(f) ==>
              IsRevisionable(DisableRevisionField(p, f), x) == IsRevisionable(p, x)
  {
  }

  /** A revisionable record together with the state the save hooks keep on it */
  datatype Model = Model(
    className: string,        // get_class($this)
    primaryKey: Value,        // getKey()
    original: Table,          // $original, as last loaded or saved
    attributes: Table,        // $attributes, the pending values
    persisted: bool,          // $exists
    policy: Policy,
    originalData: Table,      // snapshot of $original, object-valued columns dropped
    updatedData: Table,       // snapshot of $attributes, object-valued columns dropped
    isUpdating: bool,
    dirty: Dict)              // getDirty() at the start of the save

  /** The columns whose pending value is an object */
  function ObjectKeys(attributes: Table): set<string> {
    set k | k in attributes && attributes[k].Object?
  }

  /** `beforeSave()`, given the result of `getDirty()` */
  function BeforeSave(m: Model, dirty: Dict): (r: Model)
    ensures !m.policy.revisionEnabled ==> r == m
    ensures m.policy.revisionEnabled ==>
              r == m.(originalData := r.originalData, updatedData := r.updatedData,
                      dirty := dirty, isUpdating := m.persisted)
    ensures m.policy.revisionEnabled ==>
              forall k :: k in r.updatedData <==> k in m.attributes && !m.attributes[k].Object?
    ensures m.policy.revisionEnabled ==>
              forall k :: k in r.originalData <==>
                            k in m.original && !(k in m.attributes && m.attributes[k].Object?)
    ensures forall k :: k in r.updatedData && m.policy.revisionEnabled ==> r.updatedData[k] == m.attributes[k]
    ensures forall k :: k in r.originalData && m.policy.revisionEnabled ==> r.originalData[k] == m.original[k]
  {
    if !m.policy.revisionEnabled then
      m
    else
      var objects := ObjectKeys(m.attributes);
      m.(originalData := m.original - objects, updatedData := m.attributes - objects,
         dirty := dirty, isUpdating := m.persisted)
  }

  /** The dirty entries whose column is revisionable, in dirty order */
  function FilterRevisionable(p: Policy, d: Dict): (r: Dict)
    ensures forall e :: e in r <==> e in d && IsRevisionable(p, e.0)
    ensures |r| <= |d|
  {
    if d == [] then []
    else
      assert forall e :: e in d <==> e == d[0] || e in d[1..];
      if IsRevisionable(p, d[0].0) then [d[0]] + FilterRevisionable(p, d[1..])
      else FilterRevisionable(p, d[1..])
  }

  /** The filter keeps the order of the dirty array: filtering a concatenation
      concatenates the filtered parts */
  lemma {:induction false} FilterRevisionableAppend(p: Policy, a: Dict, b: Dict)
    ensures FilterRevisionable(p, a + b) == FilterRevisionable(p, a) + FilterRevisionable(p, b)
    decreases |a|
  {
    if a != [] {
      assert (a + b)[1..] == a[1..] + b;
      FilterRevisionableAppend(p, a[1..], b);
    } else {
      assert a + b == b;
    }
  }

  /** With neither list configured, every dirty column is tracked */
  lemma {:induction false} FilterWithoutListsKeepsAll(p: Policy, d: Dict)
    requires p.keepRevisionOf == [] && p.dontKeepRevisionOf == []
    ensures FilterRevisionable(p, d) == d
    decreases |d|
  {
    if d != [] {
      FilterWithoutListsKeepsAll(p, d[1..]);
    }
  }

  /** Only the kept column of a status change and a name change is tracked */
  lemma KeepListTracksOnlyListedColumns(enabled: bool, status: Value, name: Value)
    ensures var p := Policy(enabled, ["status"], []);
            FilterRevisionable(p, [("status", status), ("name", name)]) == [("status", status)]
  {
  }

  /** An excluded column is not tracked while the others are */
  lemma ExclusionListDropsListedColumns(enabled: bool, status: Value, name: Value)
    ensures var p := Policy(enabled, [], ["name"]);
            FilterRevisionable(p, [("status", status), ("name", name)]) == [("status", status)]
  {
  }

  /** The columns of `d` that are dirty but not revisionable */
  function Untracked(p: Policy, d: Dict): set<string> {
    set e | e in d && !IsRevisionable(p, e.0) :: e.0
  }

  /** `changedRevisionableFields()`: the revisionable dirty entries, and the
      model with every non-revisionable dirty column unset from both snapshots */
  function ChangedRevisionableFields(m: Model): (r: (Dict, Model))
    ensures forall e :: e in r.0 <==> e in m.dirty && IsRevisionable(m.policy, e.0)
    ensures r.1 == m.(originalData := r.1.originalData, updatedData := r.1.updatedData)
    ensures forall k :: k in r.1.updatedData <==>
                          k in m.updatedData && (IsRevisionable(m.policy, k) || !HasKey(m.dirty, k))
    ensures forall k :: k in r.1.originalData <==>
                          k in m.originalData && (IsRevisionable(m.policy, k) || !HasKey(m.dirty, k))
    ensures forall k :: k in r.1.updatedData ==> r.1.updatedData[k] == m.updatedData[k]
    ensures forall k :: k in r.1.originalData ==> r.1.originalData[k] == m.originalData[k]
  {
    var gone := Untracked(m.policy, m.dirty);
    (FilterRevisionable(m.policy, m.dirty),
     m.(originalData := m.originalData - gone, updatedData := m.updatedData - gone))
  }

  /** The current user's id, or null */
  function ActorId(actor: Option<Value>): Value {
    actor.GetOr(Null)
  }

  /** The revision row `afterSave()` builds for one changed column */
  function NewRevision(m: Model, key: string, actor: Option<Value>): RevisionRow {
    RevisionRow(
      m.className,
      m.primaryKey,
      key,
      if Isset(m.originalData, key) then m.originalData[key] else Null,
      Read(m.updatedData, key),
      ActorId(actor))
  }

  /** `afterSave()`: the model after the filter, and the revision rows written,
      one per changed revisionable column in dirty order */
  function AfterSave(m: Model, actor: Option<Value>): (r: (Model, seq<RevisionRow>))
    ensures !(m.policy.revisionEnabled && m.isUpdating) ==> r == (m, [])
    ensures m.policy.revisionEnabled && m.isUpdating ==>
              var (changes, m') := ChangedRevisionableFields(m);
              && r.0 == m'
              && |r.1| == |changes|
              && forall i :: 0 <= i < |changes| ==> r.1[i] == NewRevision(m', changes[i].0, actor)
  {
    if m.policy.revisionEnabled && m.isUpdating then
      var (changes, m') := ChangedRevisionableFields(m);
      (m', seq(|changes|, i requires 0 <= i < |changes| => NewRevision(m', changes[i].0, actor)))
    else
      (m, [])
  }

  /** The result of `save()`: its return value, the model's hook state
      afterwards, and the revision rows written */
  datatype SaveOutcome = SaveOutcome(saved: bool, model: Model, revisions: seq<RevisionRow>)

  /** `save()`: `beforeSave`, then the delegated save, whose outcome is
      `delegateSaved`, then `afterSave` when it succeeded */
  function Save(m: Model, dirty: Dict, delegateSaved: bool, actor: Option<Value>): (r: SaveOutcome)
    ensures r.saved == delegateSaved
    ensures !delegateSaved ==> r.revisions == [] && r.model == BeforeSave(m, dirty)
    ensures !m.policy.revisionEnabled ==> r.revisions == [] && r.model == m
    ensures !m.persisted ==> r.revisions == []
    ensures delegateSaved ==> (r.model, r.revisions) == AfterSave(BeforeSave(m, dirty), actor)
  {
    var before := BeforeSave(m, dirty);
    if delegateSaved then
      var (after, revisions) := AfterSave(before, actor);
      SaveOutcome(true, after, revisions)
    else
      SaveOutcome(false, before, [])
  }

  /** The old value recorded for column `k`: the loaded value, unless the
      pending value is an object (then the column was dropped) or it is null */
  function RecordedOld(m: Model, k: string): Value {
    if k in m.attributes && m.attributes[k].Object? then Null else Read(m.original, k)
  }

  /** The new value recorded for column `k`: the pending value, or null when
      it is missing or an object */
  function RecordedNew(m: Model, k: string): Value {
    if k in m.attributes && !m.attributes[k].Object? then m.attributes[k] else Null
  }

  /** Saving an existing record with revisions enabled writes, in dirty
      order, one revision per revisionable dirty column, recording the
      loaded and pending values of that column and the current user */
  lemma SaveRecordsEachRevisionableChange(m: Model, dirty: Dict, actor: Option<Value>)
    requires m.policy.revisionEnabled && m.persisted
    ensures var out := Save(m, dirty, true, actor);
            var changes := FilterRevisionable(m.policy, dirty);
            && out.saved
            && |out.revisions| == |changes|
            && forall i :: 0 <= i < |changes| ==>
                 out.revisions[i] == RevisionRow(m.className, m.primaryKey, changes[i].0,
                                                 RecordedOld(m, changes[i].0), RecordedNew(m, changes[i].0),
                                                 ActorId(actor))
  {
  }

  /** A revisionable dirty column whose pending value is an object was
      dropped from both snapshots but not from the dirty array: it still gets
      a revision, with null as both its old and its new value */
  lemma ObjectColumnStillRecorded(m: Model, dirty: Dict, actor: Option<Value>, i: nat)
    requires m.policy.revisionEnabled && m.persisted
    requires i < |dirty| && IsRevisionable(m.policy, dirty[i].0)
    requires dirty[i].0 in m.attributes && m.attributes[dirty[i].0].Object?
    ensures exists rev :: rev in Save(m, dirty, true, actor).revisions &&
              rev.key == dirty[i].0 && rev.oldValue == Null && rev.newValue == Null
  {
    var changes := FilterRevisionable(m.policy, dirty);
    assert dirty[i] in changes;
    var j :| 0 <= j < |changes| && changes[j] == dirty[i];
    SaveRecordsEachRevisionableChange(m, dirty, actor);
    assert Save(m, dirty, true, actor).revisions[j] in Save(m, dirty, true, actor).revisions;
  }

  /** Unsetting the untracked columns from the snapshots does not change any
      row written: the filter only frees memory */
  lemma UntrackedDropDoesNotChangeRows(m: Model, actor: Option<Value>)
    ensures var (changes, m') := ChangedRevisionableFields(m);
            forall e :: e in changes ==> NewRevision(m', e.0, actor) == NewRevision(m, e.0, actor)
  {
  }

  /** A saved change to a column that is not foreign-key-shaped displays as
      the pending value recorded for it, passed through the owning class's
      rule when it has one */
  lemma SavedPlainChangeDisplaysPendingValue(m: Model, dirty: Dict, actor: Option<Value>,
                                             reg: Registry, fmt: Formatter, i: nat)
    requires m.policy.revisionEnabled && m.persisted
    requires i < |FilterRevisionable(m.policy, dirty)|
    requires var k := FilterRevisionable(m.policy, dirty)[i].0;
             && !IsForeignKeyShaped(k) && !IsBlank(RecordedNew(m, k))
             && m.className in reg && reg[m.className].formattedFields.Some?
    ensures i < |Save(m, dirty, true, actor).revisions|
    ensures var k := FilterRevisionable(m.policy, dirty)[i].0;
            var rules := reg[m.className].formattedFields.value;
            NewValue(Save(m, dirty, true, actor).revisions[i], reg, fmt)
              == Success(if k in rules then fmt(k, RecordedNew(m, k), rules) else RecordedNew(m, k))
  {
    SaveRecordsEachRevisionableChange(m, dirty, actor);
  }

  /** The user responsible for a saved change is the acting user, found in
      the default user model; without that model the lookup fails */
  lemma SavedActorIsResponsible(m: Model, dirty: Dict, actor: Option<Value>, reg: Registry, i: nat)
    requires m.policy.revisionEnabled && m.persisted
    requires i < |FilterRevisionable(m.policy, dirty)|
    ensures i < |Save(m, dirty, true, actor).revisions|
    ensures var row := Save(m, dirty, true, actor).revisions[i];
            DefaultUserModel !in reg ==> UserResponsible(row, None, reg) == Failure(ModelNotFound(DefaultUserModel))
    ensures var row := Save(m, dirty, true, actor).revisions[i];
            DefaultUserModel in reg && actor.Some? && actor.value in reg[DefaultUserModel].rows ==>
              UserResponsible(row, None, reg) == Success(Some(reg[DefaultUserModel].rows[actor.value]))
  {
    SaveRecordsEachRevisionableChange(m, dirty, actor);
  }
}
