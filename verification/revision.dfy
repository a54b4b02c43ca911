/**
 * One row of the `revisions` table and the helpers that turn its stored
 * values into display values: the foreign-key heuristic on the column
 * name, the old/new value decision tree, per-type formatting, and the
 * lookup of the responsible user.
 *
 * PHP resolves model classes by name at run time (`$model::find`,
 * `new $model`, `class_exists`); here a registry maps each known class
 * name to its rows by id and to the two methods the display path calls
 * on it, which the class may or may not define.
 */
module Revision {
  import opened Base
  import opened PhpStrings

  /** A revision row: who changed which column of which record, from what to what */
  datatype RevisionRow = RevisionRow(
    revisionableType: string,
    revisionableId: Value,
    key: string,
    oldValue: Value,
    newValue: Value,
    userId: Value)

  /** A record of some revisionable model type, as `find` returns it;
      `customName` is the result of an overridden `identifiableName` */
  datatype Entity = Entity(id: Value, customName: Option<Value>)

  /** `identifiableName()` of a revisionable record: the model's override if
      it has one, else its id */
  function IdentifiableName(e: Entity): (r: Value)
    ensures e.customName.None? ==> r == e.id
    ensures e.customName.Some? ==> r == e.customName.value
  {
    e.customName.GetOr(e.id)
  }

  /** What the registry knows of one model class: its rows by id; the result
      of `getRevisionFormattedFields()`, a map from column to formatting rule,
      or `None` when the class does not define that method (the revisionable
      base model does not); and whether the class has `identifiableName()`,
      which it inherits when it extends the revisionable base model */
  datatype ModelClass = ModelClass(
    rows: map<Value, Entity>,
    formattedFields: Option<map<string, string>>,
    hasIdentifiableName: bool)

  /** The method `format` calls on the revisioned record's class */
  const FormattedFieldsGetter: string := "getRevisionFormattedFields"

  /** The method the foreign-key lookup calls on the found record */
  const NameMethod: string := "identifiableName"

  /** The model classes that exist, by class name */
  type Registry = map<string, ModelClass>

  /** `FieldFormatter::format($key, $value, $rules)`, whose rules are not modelled */
  type Formatter = (string, Value, map<string, string>) -> Value

  /** The failures the display path does not catch */
  datatype DisplayError =
    | ClassNotFound(name: string)   // a class named at run time does not exist
    | ModelNotFound(name: string)   // the configured user model does not exist
    | MethodNotFound(name: string)  // a model lacks the method called on it; Eloquent
                                    // forwards the call to the query builder, which throws

  /** `$revisionNullString` */
  const NullString: Value := Scalar("nothing")

  /** `$revisionUnknownString` */
  const UnknownString: Value := Scalar("unknown")

  /** The user model name used when none is configured */
  const DefaultUserModel: string := "User"

  /** `Model::find($id)`: the row with that id, if any */
  function Find(c: ModelClass, id: Value): (r: Option<Entity>)
    ensures r.Some? <==> id in c.rows
    ensures r.Some? ==> r.value == c.rows[id]
  {
    if id in c.rows then Some(c.rows[id]) else None
  }

  /** The truthiness of `strpos($key, '_id')`: the marker occurs, but not at index 0 */
  function IsForeignKeyShaped(key: string): (r: bool)
    ensures r <==> Contains(key, IdMarker) && !OccursAt(key, IdMarker, 0)
  {
    match StrPos(key, IdMarker)
    case Some(i) => i > 0
    case None => false
  }

  /** `fieldName()`: a foreign-key-shaped key with every marker deleted, any other key as is */
  function FieldName(key: string): (r: string)
    ensures r == key <==> !IsForeignKeyShaped(key)
    ensures IsForeignKeyShaped(key) ==> |r| <= |key| - |IdMarker|
  {
    if IsForeignKeyShaped(key) then
      StripIdWithMarker(key);
      StripId(key)
    else
      key
  }

  /** `is_null($v) or strlen($v) == 0`. Under PHP 5 and 7, `strlen` of an
      object without a string conversion warns and yields null, which
      compares equal to 0 (and to ''), so an object counts as blank too. */
  predicate IsBlank(v: Value) {
    match v
    case Null => true
    case Scalar(t) => |t| == 0
    case Object(_) => true
  }

  /** `format($key, $value)`: the formatter's result when the owning type has
      a rule for `key`, otherwise `value` unchanged; an owning class that is
      unknown or has no `getRevisionFormattedFields()` is an error */
  function Format(row: RevisionRow, key: string, value: Value, reg: Registry, fmt: Formatter)
    : (r: Result<Value, DisplayError>)
    ensures r.Success? <==> row.revisionableType in reg && reg[row.revisionableType].formattedFields.Some?
    ensures row.revisionableType !in reg ==> r == Failure(ClassNotFound(row.revisionableType))
    ensures row.revisionableType in reg && reg[row.revisionableType].formattedFields.None? ==>
              r == Failure(MethodNotFound(FormattedFieldsGetter))
    ensures r.Success? && key !in reg[row.revisionableType].formattedFields.value ==> r.value == value
    ensures r.Success? && key in reg[row.revisionableType].formattedFields.value ==>
              r.value == fmt(key, value, reg[row.revisionableType].formattedFields.value)
  {
    if row.revisionableType !in reg then
      Failure(ClassNotFound(row.revisionableType))
    else
      match reg[row.revisionableType].formattedFields
      case None => Failure(MethodNotFound(FormattedFieldsGetter))
      case Some(rules) => if key in rules then Success(fmt(key, value, rules)) else Success(value)
  }

  /** The decision tree `oldValue()` and `newValue()` share, applied to one stored value */
  function Resolve(row: RevisionRow, raw: Value, reg: Registry, fmt: Formatter): Result<Value, DisplayError> {
    if IsBlank(raw) then
      Success(NullString)
    else if IsForeignKeyShaped(row.key) then
      var model := FieldName(row.key);
      if model !in reg then
        Failure(ClassNotFound(model))
      else
        var shown := LookupLabel(reg[model], raw);
        if shown.Failure? then Failure(shown.error) else Format(row, row.key, shown.value, reg, fmt)
    else
      Format(row, row.key, raw, reg, fmt)
  }

  /** `oldValue()`: the display value of the stored old value */
  function OldValue(row: RevisionRow, reg: Registry, fmt: Formatter): (r: Result<Value, DisplayError>)
    ensures IsBlank(row.oldValue) ==> r == Success(NullString)
    ensures !IsBlank(row.oldValue) && !IsForeignKeyShaped(row.key) ==>
              r == Format(row, row.key, row.oldValue, reg, fmt)
    ensures !IsBlank(row.oldValue) && IsForeignKeyShaped(row.key) && FieldName(row.key) !in reg ==>
              r == Failure(ClassNotFound(FieldName(row.key)))
    ensures !IsBlank(row.oldValue) && IsForeignKeyShaped(row.key) && FieldName(row.key) in reg &&
            LookupLabel(reg[FieldName(row.key)], row.oldValue).Failure? ==>
              r == Failure(LookupLabel(reg[FieldName(row.key)], row.oldValue).error)
    ensures !IsBlank(row.oldValue) && IsForeignKeyShaped(row.key) && FieldName(row.key) in reg &&
            LookupLabel(reg[FieldName(row.key)], row.oldValue).Success? ==>
              r == Format(row, row.key, LookupLabel(reg[FieldName(row.key)], row.oldValue).value, reg, fmt)
  {
    Resolve(row, row.oldValue, reg, fmt)
  }

  /** `newValue()`: the same decision tree on the stored new value */
  function NewValue(row: RevisionRow, reg: Registry, fmt: Formatter): (r: Result<Value, DisplayError>)
    ensures r == OldValue(row.(oldValue := row.newValue), reg, fmt)
  {
    Resolve(row, row.newValue, reg, fmt)
  }

  /** The label a foreign-key lookup yields before formatting: the found
      record's identifiable name, or the unknown placeholder when no record
      has the id; a found record of a class without `identifiableName()` is
      an error */
  function LookupLabel(c: ModelClass, id: Value): (r: Result<Value, DisplayError>)
    ensures r.Failure? <==> id in c.rows && !c.hasIdentifiableName
    ensures r.Failure? ==> r.error == MethodNotFound(NameMethod)
    ensures id !in c.rows ==> r == Success(UnknownString)
    ensures id in c.rows && c.hasIdentifiableName && c.rows[id].customName.None? ==> r == Success(c.rows[id].id)
    ensures id in c.rows && c.hasIdentifiableName && c.rows[id].customName.Some? ==>
              r == Success(c.rows[id].customName.value)
  {
    match Find(c, id)
    case None => Success(UnknownString)
    case Some(item) =>
      if c.hasIdentifiableName then Success(IdentifiableName(item)) else Failure(MethodNotFound(NameMethod))
  }

  /** A blank stored value is displayed as the placeholder whatever the
      registry and formatter: no lookup and no formatting take place */
  lemma BlankNeedsNoLookup(row: RevisionRow, reg1: Registry, fmt1: Formatter, reg2: Registry, fmt2: Formatter)
    requires IsBlank(row.oldValue)
    ensures OldValue(row, reg1, fmt1) == OldValue(row, reg2, fmt2) == Success(NullString)
  {
  }

  /** For a key that is not foreign-key-shaped, only the owning type's
      formatting rules matter: no other class is looked up */
  lemma PlainKeyNeedsNoLookup(row: RevisionRow, reg1: Registry, reg2: Registry, fmt: Formatter)
    requires !IsForeignKeyShaped(row.key)
    requires row.revisionableType in reg1 <==> row.revisionableType in reg2
    requires row.revisionableType in reg1 ==>
               reg1[row.revisionableType].formattedFields == reg2[row.revisionableType].formattedFields
    ensures OldValue(row, reg1, fmt) == OldValue(row, reg2, fmt)
  {
  }

  /** A foreign-key-shaped key whose stripped name is no class is an error
      that reaches the caller; it is never shown as the unknown placeholder */
  lemma MissingClassIsNotSwallowed(row: RevisionRow, reg: Registry, fmt: Formatter)
    requires !IsBlank(row.oldValue) && IsForeignKeyShaped(row.key)
    requires FieldName(row.key) !in reg
    ensures OldValue(row, reg, fmt).Failure?
    ensures OldValue(row, reg, fmt).error == ClassNotFound(FieldName(row.key))
  {
  }

  /** Without `getRevisionFormattedFields()` on the revisioned record's class,
      no non-blank value can be displayed: every path ends in `format`, or
      fails before it */
  lemma MissingFormattedFieldsGetterFails(row: RevisionRow, reg: Registry, fmt: Formatter)
    requires row.revisionableType in reg && reg[row.revisionableType].formattedFields.None?
    requires !IsBlank(row.oldValue)
    ensures OldValue(row, reg, fmt).Failure?
    ensures !IsForeignKeyShaped(row.key) ==>
              OldValue(row, reg, fmt) == Failure(MethodNotFound(FormattedFieldsGetter))
  {
  }

  /** `fieldName()` keeps the key up to its first marker and deletes the
      markers the pass finds in the rest */
  lemma FieldNameCutsAtFirstMarker(key: string, i: nat)
    requires StrPos(key, IdMarker) == Some(i) && i > 0
    ensures FieldName(key) == key[..i] + StripId(key[i + |IdMarker|..])
  {
    assert !Contains(key[..i], IdMarker) by {
      forall j
        ensures !OccursAt(key[..i], IdMarker, j)
      {
        OccursInPrefix(key, IdMarker, i, j);
      }
    }
    assert key == key[..i] + IdMarker + key[i + |IdMarker|..];
    StripIdAfterPrefix(key[..i], key[i + |IdMarker|..]);
  }

  /** A key ending in the marker names the related class before it */
  lemma FieldNameOfSuffixedKey()
    ensures IsForeignKeyShaped("author_id")
    ensures FieldName("author_id") == "author"
  {
    NoUnderscoreNoMarker("author");
    assert OccursAt("author_id", IdMarker, 6);
    assert "author_id" == "author" + IdMarker + "";
    StripIdAfterPrefix("author", "");
    StripIdWithoutMarker("");
  }

  /** The marker counts anywhere after the first character, not only as a suffix */
  lemma FieldNameOfInnerMarker()
    ensures IsForeignKeyShaped("is_idle")
    ensures FieldName("is_idle") == "isle"
  {
    NoUnderscoreNoMarker("is");
    NoUnderscoreNoMarker("le");
    assert OccursAt("is_idle", IdMarker, 2);
    assert "is_idle" == "is" + IdMarker + "le";
    StripIdAfterPrefix("is", "le");
    StripIdWithoutMarker("le");
  }

  /** A marker at index 0 makes `strpos` return 0, which is falsy: such a key
      is left as is, even when it holds further markers */
  lemma FieldNameOfLeadingMarker()
    ensures !IsForeignKeyShaped("_id") && FieldName("_id") == "_id"
    ensures !IsForeignKeyShaped("_idol_id") && FieldName("_idol_id") == "_idol_id"
  {
  }

  /** `getUserModel()`: the configured user model name, `User` by default,
      provided such a class exists */
  function GetUserModel(configured: Option<string>, reg: Registry): (r: Result<string, DisplayError>)
    ensures configured.None? ==> (r.Success? <==> DefaultUserModel in reg)
    ensures r.Success? <==> configured.GetOr(DefaultUserModel) in reg
    ensures r.Success? ==> r.value == configured.GetOr(DefaultUserModel)
    ensures r.Failure? ==> r.error == ModelNotFound(configured.GetOr(DefaultUserModel))
  {
    var name := configured.GetOr(DefaultUserModel);
    if name in reg then Success(name) else Failure(ModelNotFound(name))
  }

  /** `userResponsible()`: the user with the row's `user_id` in the user model */
  function UserResponsible(row: RevisionRow, configured: Option<string>, reg: Registry)
    : (r: Result<Option<Entity>, DisplayError>)
    ensures r.Failure? <==> configured.GetOr(DefaultUserModel) !in reg
    ensures r.Failure? ==> r.error == ModelNotFound(configured.GetOr(DefaultUserModel))
    ensures r.Success? ==>
              (r.value.Some? <==> row.userId in reg[configured.GetOr(DefaultUserModel)].rows)
    ensures r.Success? && r.value.Some? ==> r.value.value == reg[configured.GetOr(DefaultUserModel)].rows[row.userId]
  {
    match GetUserModel(configured, reg)
    case Failure(e) => Failure(e)
    case Success(name) => Success(Find(reg[name], row.userId))
  }
}
