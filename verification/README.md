# Revisionable: a Dafny model of the revision core

This project models the core of the `maclof/revisionable` package: an
Eloquent base model (`Revisionable`) that records one row in a `revisions`
table for each tracked column an update changes, and the `Revision` model
whose helpers turn a stored row into display values.

The model is functional. The record and the state its save hooks keep form
an immutable `Model` value. `Save` is a transition from one `Model` to a
`SaveOutcome`. It runs `BeforeSave`, then takes the outcome of the delegated
Eloquent save as a boolean, then runs `AfterSave`, which returns the
revision rows it writes.

Modules:

- `Base` (base.dfy): `Option`, `Result`, the PHP `Value` (null, scalar or object), and
  PHP arrays. An array that is only read by key is a `map`. The dirty array,
  which is iterated in order, is a sequence of pairs.
- `PhpStrings` (php_strings.dfy): `strpos` and `str_replace('_id', '', …)` with PHP's
  semantics.
- `Revision` (revision.dfy): the revision row, the foreign-key heuristic, the
  `oldValue`/`newValue` decision tree, `format` and the user lookup. Run-time
  class resolution (`$model::find`, `new $model`, `class_exists`) is a
  registry. It maps a class name to that class's rows by id, to the result of
  its `getRevisionFormattedFields()` if it defines that method, and to whether
  it has `identifiableName()`. `FieldFormatter::format` is a function parameter.
- `Revisionable` (revisionable.dfy): the revision policy, `disableRevisionField`,
  the snapshots, the dirty-field filter, emission and `save`.

The model follows the code where it departs from the documented intent:

- **Object-valued columns.** `beforeSave` drops them from both snapshots, but
  they stay in the dirty array. A revisionable object-valued dirty column
  therefore still gets a revision, with null as both its old and new value.
  This is the lemma `ObjectColumnStillRecorded`.
- **Failed lookups are not caught.** The `catch (Exception $e)` blocks in
  `oldValue`/`newValue` sit inside the `Maclof\Revisionable` namespace. They
  name `Maclof\Revisionable\Exception`, not the global exception class. A
  foreign-key-shaped key whose stripped name is not a class is therefore an
  error that reaches the caller (`ClassNotFound`). It is not shown as
  `'unknown'`. Only a missing row yields the `'unknown'` placeholder.
- **Methods the display path assumes.** `format` calls
  `getRevisionFormattedFields()` on the revisioned record's class, and the
  foreign-key lookup calls `identifiableName()` on the found record. The
  revisionable base model defines only the second. A class without the method
  makes Eloquent forward the call to its query builder, which throws; nothing
  catches it, so the display fails with `MethodNotFound`. In particular, a class
  that does not add `getRevisionFormattedFields()` itself cannot display any
  non-blank value (`MissingFormattedFieldsGetterFails`).
- **Unknown user model.** When the configured user model does not exist,
  `userResponsible` fails with `ModelNotFound`. It does not return nothing.
- **`fieldName` is not a suffix check.** The key is foreign-key-shaped when
  `_id` occurs at an index greater than 0 (`strpos` returning 0 is falsy).
  Every `_id` found in one left-to-right pass is then deleted, so `is_idle`
  becomes `isle`. The pass does not rescan its output, so `a__idid` becomes
  `a_id`.
- **Empty test in `newValue`.** `strlen(...) == ''` is read with PHP 5/7
  comparison: an integer equals `''` exactly when it is 0. So `newValue`
  uses the same blank test as `oldValue`.

## Model

| member | source | states |
|---|---|---|
| `PhpStrings.StrPos` | src/Maclof/Revisionable/Revision.php:51 | `strpos` returns the index of the first occurrence of the needle, and nothing exactly when there is no occurrence |
| `PhpStrings.StripIdChangesIffMarker` | src/Maclof/Revisionable/Revision.php:53 | `str_replace('_id', '', s)` changes `s` exactly when `_id` occurs in it |
| `PhpStrings.StripIdWithMarker` | src/Maclof/Revisionable/Revision.php:53 | when `_id` occurs, the replacement is at least three characters shorter |
| `PhpStrings.StripIdAfterPrefix` | src/Maclof/Revisionable/Revision.php:53 | a prefix without `_id` is kept, the first `_id` is deleted, and the rest is processed the same way |
| `PhpStrings.StripIdIsSinglePass` | src/Maclof/Revisionable/Revision.php:53 | deletions are not rescanned: `a__idid` becomes `a_id`, which still contains `_id` |
| `Revision.IsForeignKeyShaped` | src/Maclof/Revisionable/Revision.php:51 | the `strpos` test is true exactly when `_id` occurs in the key but not at index 0 |
| `Revision.FieldName` | src/Maclof/Revisionable/Revision.php:49-57 | the key is returned unchanged exactly when it is not foreign-key-shaped; otherwise the result is at least three characters shorter |
| `Revision.FieldNameCutsAtFirstMarker` | src/Maclof/Revisionable/Revision.php:51-53 | for a first `_id` at index i > 0, the field name is the key up to i followed by the rest with every `_id` deleted |
| `Revision.FieldNameOfSuffixedKey` | src/Maclof/Revisionable/Revision.php:49-57 | `author_id` is foreign-key-shaped and names `author` |
| `Revision.FieldNameOfInnerMarker` | src/Maclof/Revisionable/Revision.php:49-57 | `_id` anywhere after index 0 counts: `is_idle` names `isle` |
| `Revision.FieldNameOfLeadingMarker` | src/Maclof/Revisionable/Revision.php:49-57 | keys starting with `_id` (`_id`, `_idol_id`) are not foreign-key-shaped and are kept as is |
| `Revision.IdentifiableName` | src/Maclof/Revisionable/Revisionable.php:205-208 | a record's identifiable name is its id unless the model overrides it, in which case it is the override |
| `Revision.Format` | src/Maclof/Revisionable/Revision.php:170-182 | succeeds exactly when the owning class exists and defines `getRevisionFormattedFields()`, failing with `ClassNotFound` or `MethodNotFound` otherwise; on success the value is returned unchanged when there is no rule for the key, and is the formatter's result when there is one |
| `Revision.LookupLabel` | src/Maclof/Revisionable/Revision.php:78-85 | a missing row yields `'unknown'`; a found row yields its identifiable name, which is its id unless the model overrides it; a found row of a class without `identifiableName()` is a `MethodNotFound` error, and that is the only failure |
| `Revision.OldValue` | src/Maclof/Revisionable/Revision.php:66-94 | a null or empty old value gives `'nothing'`; a plain key gives the formatted raw value; a foreign-key-shaped key gives the formatted lookup label, or the lookup's error, or an uncaught error when the stripped name is no class |
| `Revision.MissingFormattedFieldsGetterFails` | src/Maclof/Revisionable/Revision.php:170-174 | when the revisioned record's class has no `getRevisionFormattedFields()`, every non-blank old value fails to display, and for a plain key the failure is `MethodNotFound` |
| `Revision.NewValue` | src/Maclof/Revisionable/Revision.php:104-132 | `newValue` is `oldValue` applied to the stored new value |
| `Revision.BlankNeedsNoLookup` | src/Maclof/Revisionable/Revision.php:68-71 | a blank old value gives `'nothing'` whatever the registry and formatter, so no lookup or formatting takes place |
| `Revision.PlainKeyNeedsNoLookup` | src/Maclof/Revisionable/Revision.php:75-93 | for a key that is not foreign-key-shaped, the result depends only on the owning class's formatting rules |
| `Revision.MissingClassIsNotSwallowed` | src/Maclof/Revisionable/Revision.php:73-91 | when the stripped name is no class, the error reaches the caller instead of becoming `'unknown'` |
| `Revision.GetUserModel` | src/Maclof/Revisionable/Revision.php:150-160 | the user model is the configured name, defaulting to `User`; the call fails with `ModelNotFound` exactly when no such class exists |
| `Revision.UserResponsible` | src/Maclof/Revisionable/Revision.php:140-143 | fails exactly when the user model is missing; otherwise returns the row whose id is `user_id`, if there is one |
| `Revisionable.IsRevisionable` | src/Maclof/Revisionable/Revisionable.php:184-194 | a key is revisionable exactly when it is in `keepRevisionOf`, or `keepRevisionOf` is empty and the key is not in `dontKeepRevisionOf`; so inclusion wins over exclusion, and a non-empty inclusion list tracks only its own keys |
| `Revisionable.DisableRevisionField` | src/Maclof/Revisionable/Revisionable.php:216-226 | the exclusion list afterwards holds exactly the old entries plus the given fields; an array goes in front in its own order, followed by the old list; a single field is appended after the old list; nothing else in the policy changes |
| `Revisionable.DisabledFieldIsNotRevisionable` | src/Maclof/Revisionable/Revisionable.php:216-226 | a disabled field stays tracked only when it is in `keepRevisionOf`; every other field keeps its status |
| `Revisionable.BeforeSave` | src/Maclof/Revisionable/Revisionable.php:100-121 | when enabled, the snapshots are `original` and `attributes` minus exactly the keys whose attribute value is an object; values are unchanged; `dirty` and `isUpdating = exists` are recorded; when disabled nothing changes |
| `Revisionable.FilterRevisionable` | src/Maclof/Revisionable/Revisionable.php:158-175 | the result holds exactly the dirty entries whose key is revisionable, with their values |
| `Revisionable.FilterRevisionableAppend` | src/Maclof/Revisionable/Revisionable.php:160-164 | the filter keeps dirty order: filtering a concatenation gives the concatenation of the filtered parts |
| `Revisionable.FilterWithoutListsKeepsAll` | src/Maclof/Revisionable/Revisionable.php:193 | with both lists empty, every dirty entry is kept |
| `Revisionable.KeepListTracksOnlyListedColumns` | src/Maclof/Revisionable/Revisionable.php:190 | with `keepRevisionOf = [status]`, a change to `status` and `name` keeps only `status` |
| `Revisionable.ExclusionListDropsListedColumns` | src/Maclof/Revisionable/Revisionable.php:191 | with `dontKeepRevisionOf = [name]`, a change to `status` and `name` keeps only `status` |
| `Revisionable.ChangedRevisionableFields` | src/Maclof/Revisionable/Revisionable.php:156-176 | the result is the revisionable dirty entries; each non-revisionable dirty key is unset from both snapshots; every other key and value, and every other field of the model, is unchanged |
| `Revisionable.AfterSave` | src/Maclof/Revisionable/Revisionable.php:129-148 | nothing is emitted unless revisions are enabled and this is an update; otherwise one row per changed revisionable key, in order, with the class, key, isset-or-null old value, new value and actor id |
| `Revisionable.Save` | src/Maclof/Revisionable/Revisionable.php:81-93 | the result is the delegated outcome; a failed save emits nothing; a disabled policy or a first insert emits nothing; a successful save runs `afterSave` on the `beforeSave` state |
| `Revisionable.SaveRecordsEachRevisionableChange` | src/Maclof/Revisionable/Revisionable.php:100-148 | a successful update emits one row per revisionable dirty key, in dirty order; old is the loaded value and new is the pending value, each null when missing or when the pending value is an object |
| `Revisionable.ObjectColumnStillRecorded` | src/Maclof/Revisionable/Revisionable.php:109-143 | a revisionable dirty key whose pending value is an object still gets a row, with null old and new values |
| `Revisionable.SavedPlainChangeDisplaysPendingValue` | src/Maclof/Revisionable/Revisionable.php:129-143 | a saved change to a non-blank column that is not foreign-key-shaped displays, through `newValue`, as the pending value recorded for it, passed through the class's formatting rule when there is one |
| `Revisionable.SavedActorIsResponsible` | src/Maclof/Revisionable/Revision.php:140-160 | for a row a save emits, `userResponsible` with the default configuration returns the acting user's record from `User`, and fails with `ModelNotFound` when there is no `User` class |
| `Revisionable.UntrackedDropDoesNotChangeRows` | src/Maclof/Revisionable/Revisionable.php:168-171 | unsetting untracked keys from the snapshots changes none of the rows emitted |

## Left out

- `RevisionableServiceProvider.php` is package bootstrap with no logic.
- Persistence is not modelled. This covers Eloquent's own `save`, writing each
  revision row and its `created_at` timestamp, and the `revisionHistory` and
  `revisionable` relations (`morphMany`, `morphTo`). The model returns the rows
  a save would write. Partial failure part-way through writing them depends on
  storage.
- `getDirty()` is taken as an argument, and so is the outcome of the delegated
  save. What Eloquent does to `original` and `exists` after a successful save is
  also left out. `SaveOutcome.model` is the hook state only.
- `\Auth::user()` is replaced by the current user's id as an `Option`.
  `Config::get` is replaced by the configured user-model name as an `Option`.
- `FieldFormatter::format` is a function parameter. Its rule kinds (yes/no,
  dates and so on) are not part of this model.
- Revisionable.IsRevisionable: `in_array` compares loosely. Here both lists and
  keys are strings compared by equality. The two differ only for numeric-looking
  strings, or for lists that hold non-strings.
- Revisionable.DisableRevisionField: `array_merge` is modelled for list arrays.
  An argument with string keys would overwrite entries instead.
- Revision.OldValue: it follows PHP 5/7. There, `strlen` of an object yields
  null, which counts as blank. PHP 8 would throw instead, and its `== ''` in
  `newValue` would never hold.
- Scalars are held as their PHP string conversion. Ints, floats and bools are
  not told apart.
- Reading a missing `updatedData` key gives null. The PHP notice it raises is
  not modelled.
