# Biodata: a verified model of the single-record store

The Biodata app keeps one personal record ("biodata": name, NIM student
number, birth place, birth date, address and an optional photo URI) in a
Room table, `biodata_table`. This project models its core in Dafny:

- `Model` (`biodata_item.dfy`): the `Biodataitem` entity, a Kotlin data
  class, as a datatype with the same seven fields and the same defaults
  (`id` = 1, `photoUri` = null). Kotlin's `Int` id is the 32-bit `Int32`.
- `Dao` (`biodata_dao.dfy`): the `BiodataDao` as a class whose `table`
  field, a map from primary key to row, is the persisted table. Its three
  operations are insert-or-replace by primary key (Room's
  `OnConflictStrategy.REPLACE`, SQLite's `INSERT OR REPLACE`), the select
  of the row with id 1, and the delete of the row with id 1. Each method is
  specified by a pure function on the table (`InsertOrReplace`,
  `SelectById`, `DeleteById`), and the table invariant `KeyedById` (every
  row sits under its own id, so one row per id) is kept by all of them.
- `ViewModel` (`biodata_view_model.dfy`): `BiodataViewModel` as a class
  holding its DAO. `saveBiodata` returns early when `name` or `nim` is
  blank; otherwise it builds a record with id 1, the five text fields
  trimmed and the photo URI passed through, and calls the DAO's replace.
  `deleteBiodata` always calls the DAO's delete; `biodata` passes the DAO's
  query through. The pure function `NewBiodata` states what record is
  built, and `AfterSave` the table after a save; the lemmas beside them
  prove the validation no-op, the replace semantics, idempotence, the
  trimming and the invariant that a table written only through the view
  model holds at most the row with id 1, with non-empty trimmed `name` and
  `nim`.
- `KotlinText` (`kotlin_text.dfy`): Kotlin's `isBlank`, `trimStart`,
  `trimEnd` and `trim`, over an abstract whitespace test `ws` standing for
  `Char.isWhitespace`. `TrimsTo` is an independent reference definition of
  trimming (the slice of the input with only whitespace outside it and no
  whitespace at its ends); `Trim` meets it and is the only string that
  does, and `isBlank(s)` holds exactly when `trim(s)` is empty.
- `Wrappers` (`wrappers.dfy`): `Option`, for Kotlin's nullable types.

Coroutine launches (`viewModelScope.launch`, `suspend`) are modelled as
synchronous calls, and the `Flow` returned by the query as the query's
current result. The whitespace test is a constructor argument of the view
model.

Two points where the code says more than its comments or than a first
reading suggests:
- The comment at BiodataDao.kt:13 says a save always updates because the
  id is 1. The DAO in fact writes a record under its own `id`
  (BiodataDao.kt:14-15), and only the view model fixes that id to 1. A
  record with another id is stored but never returned by `getBiodata`
  (`Dao.SelectAfterInsert`).
- BiodataViewModel.kt:29 runs `isBlank` on the untrimmed input and trims
  afterwards. This rejects exactly the inputs whose trim is empty
  (`KotlinText.BlankIffTrimEmpty`).

## Model

| member | source | states |
|---|---|---|
| `KotlinText.IsBlank` | BiodataViewModel.kt:29 | the string is empty or every character satisfies the whitespace test |
| `KotlinText.TrimStart` | BiodataViewModel.kt:33-37 | the result is a suffix of the input, everything dropped is whitespace, and it does not start with whitespace |
| `KotlinText.TrimEnd` | BiodataViewModel.kt:33-37 | the result is a prefix of the input, everything dropped is whitespace, and it does not end with whitespace |
| `KotlinText.Trim` | BiodataViewModel.kt:33-37 | `trim` returns a slice of the input with only whitespace outside it and no whitespace at either end (the reference definition `TrimsTo`) |
| `KotlinText.TrimUnique` | BiodataViewModel.kt:33-37 | any string meeting the reference definition of trimming equals `trim`'s result, so the definition fixes it |
| `KotlinText.BlankIffTrimEmpty` | BiodataViewModel.kt:29-34 | `isBlank(s)` holds if and only if `trim(s)` is empty |
| `KotlinText.TrimIdempotent` | BiodataViewModel.kt:33-37 | trimming an already trimmed string changes nothing |
| `KotlinText.TrimHasNoOuterBlanks` | BiodataViewModel.kt:33-37 | `trim`'s result neither starts nor ends with whitespace |
| `KotlinText.TrimKeepsTrimmed` | BiodataViewModel.kt:33-37 | a string without whitespace at its ends is its own trim |
| `Model.DefaultsApply` | Biodataitem.kt:5-14 | a record built without `id` and `photoUri` has id 1 and no photo, and the other fields as given |
| `Model.EqualityIsStructural` | Biodataitem.kt:5-15 | two records are equal exactly when all seven fields are equal |
| `Dao.KeyedById` | Biodataitem.kt:6-7 | every row sits under its own id, so the table holds at most one row per id |
| `Dao.InsertOrReplace` | BiodataDao.kt:14-15 | after insert-or-replace the row under the record's id is that record, the key set gains only that id, rows under other ids are unchanged, and one-row-per-id is preserved |
| `Dao.SelectById` | BiodataDao.kt:18-19 | the select returns a row exactly when the key is present, that row, and (with one row per id) a row carrying the asked id |
| `Dao.DeleteById` | BiodataDao.kt:22-23 | the delete removes only the given key, leaves the other rows as they were and keeps one-row-per-id |
| `Dao.SelectAfterInsert` | BiodataDao.kt:14-19 | after saving a record with id 1 the query returns it; a record with another id leaves the query's result as it was |
| `Dao.InsertReplacesSameKey` | BiodataDao.kt:14-15 | two records with the same id occupy one slot: the second save replaces the first completely |
| `Dao.InsertIdempotent` | BiodataDao.kt:14-15 | saving the same record twice leaves the table as saving it once |
| `Dao.SelectAfterDelete` | BiodataDao.kt:18-23 | after the delete the query returns null |
| `Dao.DeleteAbsentIsNoop` | BiodataDao.kt:22-23 | deleting an absent row changes nothing, and deleting twice equals deleting once |
| `Dao.BiodataDao.constructor` | BiodataDao.kt:10-11 | a new database holds no rows and satisfies one-row-per-id |
| `Dao.BiodataDao.SaveBiodata` | BiodataDao.kt:13-15 | the new table is the old one with the record inserted or replaced under its id, and one-row-per-id holds |
| `Dao.BiodataDao.GetBiodata` | BiodataDao.kt:17-19 | returns the row with id 1 if the table has one, and null otherwise |
| `Dao.BiodataDao.DeleteBiodata` | BiodataDao.kt:21-23 | the new table is the old one without the row with id 1, and one-row-per-id holds |
| `ViewModel.NewBiodata` | BiodataViewModel.kt:29-39 | a record is built exactly when neither `name` nor `nim` is blank; it has id 1, non-empty `name` and `nim`, each text field the trim of the input by the reference definition, and the photo URI as given |
| `ViewModel.AfterSave` | BiodataViewModel.kt:29-40 | a rejected save leaves the table unchanged; an accepted one makes the query return the built record; rows under ids other than 1 are untouched |
| `ViewModel.BlankNameOrNimIsNoop` | BiodataViewModel.kt:29 | a blank `name` or `nim` leaves the table unchanged, and an empty table stays empty |
| `ViewModel.SavedRecordIsTrimmedInput` | BiodataViewModel.kt:31-40 | after an accepted save the query returns id 1, the trimmed `name`, `nim`, `birthPlace`, `birthDate`, `address`, and the untrimmed photo URI (possibly null) |
| `ViewModel.BlankOptionalFieldsStoredEmpty` | BiodataViewModel.kt:29-37 | blank birth place, birth date or address do not stop a save and are stored as empty strings |
| `ViewModel.SaveReplaces` | BiodataViewModel.kt:31-40 | save A then an accepted save B gives the table save B alone gives: no field of A survives |
| `ViewModel.SaveIdempotent` | BiodataViewModel.kt:31-40 | two identical saves give the same table as one |
| `ViewModel.ViewModelInvariant` | BiodataViewModel.kt:29-45 | a table written only through the view model (only id 1, non-empty `name` and `nim`, no text field with outer whitespace) stays so after a save or a delete |
| `ViewModel.EmptyTableWrittenByViewModel` | BiodataViewModel.kt:29-40 | the empty table of a fresh database meets the view-model invariant |
| `ViewModel.TrimmingExample` | BiodataViewModel.kt:31-34 | with space as whitespace, saving "  Alice  " and "  007  " stores "Alice" and "007" |
| `ViewModel.BudiExample` | BiodataViewModel.kt:29-40 | saving Budi's record on an empty table makes the query return it unchanged, with id 1 and no photo |
| `ViewModel.BiodataViewModel.constructor` | BiodataViewModel.kt:11-14 | the view model holds the given DAO and whitespace test |
| `ViewModel.BiodataViewModel.Biodata` | BiodataViewModel.kt:17 | returns exactly what the DAO's query returns on the current table |
| `ViewModel.BiodataViewModel.SaveBiodata` | BiodataViewModel.kt:20-41 | the new table is `AfterSave` of the old one, one-row-per-id holds, and a table written only through the view model stays so |
| `ViewModel.BiodataViewModel.DeleteBiodata` | BiodataViewModel.kt:44-46 | the DAO's delete always runs: the row with id 1 is gone, the query returns null, other rows and the view-model invariant are kept |
| `ViewModel.SaveReadDeleteRead` | BiodataViewModel.kt:17-46 | on a fresh database, save Budi's record, read it back as submitted, delete it, and read null |

## Left out

- The screen (BiodataScreen.kt): Compose layout, edit/view toggling, snackbars, the delete dialog, the photo picker and its URI permission grant, image loading. It is UI and platform calls; it only calls the view model's three members.
- The database singleton (AppDatabase.kt): lazy construction behind a volatile field and a lock, the Room builder and destructive migration. A new `Dao.BiodataDao` stands for a freshly built database.
- Coroutines and `Flow`: writes are synchronous calls, the flow is the current result of its query; emission order and subscription are not modelled.
- Storage failures: Room and SQLite internals and disk I/O errors belong to a foreign library; the model's writes always succeed.
- The Unicode whitespace table behind Kotlin's `Char.isWhitespace`: kept as the parameter `ws`.
