# Entity CRUD core — a Dafny model

A JavaFX desktop application keeps one kind of record, an *entity* (id,
name, description, two timestamps), in an H2 table and lists it page by
page. This project models the parts of it that hold logic:

- **Field validation** (`Entity`): a name must be non-null with 3..50
  characters after Java's `trim()`, and it is stored untrimmed; a
  description may be null and otherwise has at most 255 raw characters. A
  setter that rejects a value throws before assigning, so the field keeps its
  old value. The constructor goes through both setters.
- **The edit dialog** (`EntityDialogController`): `processResult` checks
  the name text with its own copy of the rule, then writes name and
  description through the setters.
- **The DAO** (`EntityDAOImpl`) over the `entity` table, held as a
  sequence of rows `(id, name, description)` in insertion order plus the
  identity counter: `add`, `update`, `delete`, `get` and the paged,
  filtered `getAll`.
- **Page arithmetic** of the two list screens: `MainController` (page count
  `max(1, ceil(total / 10))`, 0-based widget index vs. 1-based data page,
  step back after deleting the last item of a page, jump to the last page
  after an add) and `EntityController` (a 1-based `currentPage` counter).

Modules: `Wrappers` (Option, Result, Outcome for null and exceptions),
`Validation`, `EntityModel`, `Paging`, `EntityDao`, `DaoScenarios`
(the DAO test flows), `DialogControl`, `MainControl`, `ListControl`.
Java's nullable strings are `Option<string>`; a call that can throw returns
`Result` or `Outcome`, and on failure its contract says what changed before
the throw (nothing, for the setters).

Two consequences of the code as written are proved:

- The table declares `name VARCHAR(50)`, but `setName` bounds the
  *trimmed* length. A name such as `"abc"` followed by 48 blanks is a valid
  entity name, yet its insert fails inside the database and `add` swallows
  the `SQLException`: nothing is stored and the id stays unset
  (`EntityDao.AcceptedNameCanOverflowColumn`, `EntityDao.EntityDAOImpl.Add`).
- `setEntity(null)` builds `new Entity(null, "", null, null, null)`, whose
  empty name makes the constructor throw, so it always fails
  (`DialogControl.EntityDialogController.SetEntity`). The dialog test at
  src/test/java/com/example/crudapp/controller/EntityDialogControllerTest.java:49-53 expects it to succeed; it was evidently
  written against another revision of `Entity`, and the model follows the code.
  A consequence: `handleNewEntity` calls `showEditDialog(null)`, whose
  `setEntity(null)` throws at
  src/main/java/com/example/crudapp/controller/MainController.java:144; only
  `IOException` is caught there (line 184), so the add branch (line 163) and the
  jump to the last page (lines 168-175) are unreachable as written.

The model follows the code: the
description bound is 255 raw (untrimmed) characters; the DAO does not
validate before writing; `get` returns null (`None`) for a missing id.

## Model

| member | source | states |
|---|---|---|
| `Validation.TrimIsBlankFreeInfix` | src/main/java/com/example/crudapp/model/Entity.java:35 | `trim()` yields the infix of the name between its leading and trailing blanks (chars ≤ U+0020), starting and ending with a non-blank |
| `Validation.TrimStart` | src/main/java/com/example/crudapp/model/Entity.java:35 | the leading half of `trim()`: a suffix of the input, every dropped character is a blank, and the result does not start with a blank |
| `Validation.TrimEnd` | src/main/java/com/example/crudapp/model/Entity.java:35 | the trailing half of `trim()`: a prefix of the input, every dropped character is a blank, and the result does not end with a blank |
| `Validation.Trim` | src/main/java/com/example/crudapp/model/Entity.java:35 | definition only, no contract: `trim()` strips leading blanks, then trailing ones; `TrimIsBlankFreeInfix` and `TrimEmptyIffAllBlank` characterise the result |
| `Validation.IsValidName` | src/main/java/com/example/crudapp/model/Entity.java:35 | definition only, no contract: the name is non-null and its trimmed length lies in 3..50; its consequences are the lemmas `ValidNameHasNonBlankEnds`, `PaddedNameStaysValid` and the two boundary lemmas |
| `Validation.IsValidDescription` | src/main/java/com/example/crudapp/model/Entity.java:46 | definition only, no contract: the description is null or has at most 255 raw characters |
| `Validation.TrimEmptyIffAllBlank` | src/main/java/com/example/crudapp/model/Entity.java:35 | a name trims to the empty string exactly when every character is a blank |
| `Validation.ValidNameHasNonBlankEnds` | src/main/java/com/example/crudapp/model/Entity.java:35 | a name that passes the check is non-null, has at least 3 characters, and has two distinct non-blank characters (the ends of its trimmed part); the characters between may all be blanks |
| `Validation.PaddedNameStaysValid` | src/main/java/com/example/crudapp/model/Entity.java:35-38 | blanks added at either end of an accepted name keep it accepted, so the stored (untrimmed) name has no length bound |
| `Validation.ShortNameBoundary` | src/main/java/com/example/crudapp/model/Entity.java:35 | null, "ab" and "  ab  " are rejected; "abc" is accepted |
| `Validation.LongNameBoundary` | src/main/java/com/example/crudapp/model/Entity.java:35 | a 50-character name is accepted, a 51-character one rejected |
| `EntityModel.Entity.Allocate` | src/main/java/com/example/crudapp/model/Entity.java:7-14 | the constructor's first step: `this.id = id` (line 14) has run and name, description and timestamps still hold their null defaults |
| `EntityModel.Entity.Valid` | src/main/java/com/example/crudapp/model/Entity.java:34-50 | definition only, no contract: both field rules hold, the name accepted by `setName`'s check and the description by `setDescription`'s |
| `EntityModel.Entity.Create` | src/main/java/com/example/crudapp/model/Entity.java:13-19 | construction succeeds iff name and description are both valid; a bad name throws the name message, else a bad description throws the description message; on success the fresh entity is valid and holds exactly the given id, name, description and timestamps |
| `EntityModel.Entity.SetName` | src/main/java/com/example/crudapp/model/Entity.java:34-39 | accepts iff the name is non-null with trimmed length in 3..50; an accepted name is stored verbatim, a rejected one throws the name message and leaves the field as it was, so the field only ever holds null or an accepted name |
| `EntityModel.Entity.SetDescription` | src/main/java/com/example/crudapp/model/Entity.java:45-50 | accepts null and any description of at most 255 raw characters, storing it; longer ones throw the description message and leave the field as it was |
| `EntityModel.Entity.SetId` | src/main/java/com/example/crudapp/model/Entity.java:26-28 | sets the id with no check and changes no other field |
| `EntityModel.Entity.SetCreatedAt` | src/main/java/com/example/crudapp/model/Entity.java:56-58 | sets createdAt with no check and changes no other field |
| `EntityModel.Entity.SetUpdatedAt` | src/main/java/com/example/crudapp/model/Entity.java:64-66 | sets updatedAt with no check and changes no other field |
| `EntityModel.Entity.ToString` | src/main/java/com/example/crudapp/model/Entity.java:68-71 | the display text is the name; for a valid entity it is non-null with 3..50 trimmed characters |
| `Paging.Slice` | src/main/java/com/example/crudapp/dao/EntityDAOImpl.java:82-83 | LIMIT/OFFSET keeps `min(limit, n - offset)` rows (none past the end), the k-th being row `offset + k` |
| `Paging.PageOf` | src/main/java/com/example/crudapp/dao/EntityDAOImpl.java:82-83 | definition only, no contract: the 1-based page is the slice at offset `(page - 1) * size`; `PageBounds` and `PagesCoverAll` state its properties |
| `Paging.CeilDiv` | src/main/java/com/example/crudapp/controller/MainController.java:75 | the least page count whose pages hold every item |
| `Paging.PageBounds` | src/main/java/com/example/crudapp/dao/EntityDAOImpl.java:82-83 | a page has at most pageSize rows, all from the result set, and a page past the end is empty |
| `Paging.PagesArePrefix` | src/main/java/com/example/crudapp/dao/EntityDAOImpl.java:82-83 | pages 1..n concatenated are the first n·pageSize rows of the result set |
| `Paging.PagesCoverAll` | src/main/java/com/example/crudapp/dao/EntityDAOImpl.java:82-83 | pages 1..ceil(n/pageSize) concatenated are exactly the result set: no row lost, none repeated |
| `EntityDao.Lookup` | src/main/java/com/example/crudapp/dao/EntityDAOImpl.java:53-66 | `get` yields no row iff no row has the id; otherwise a row of the table with that id, the only one under a unique key |
| `EntityDao.Updated` | src/main/java/com/example/crudapp/dao/EntityDAOImpl.java:29-39 | the UPDATE keeps the row count and rewrites exactly the rows whose id matches, leaving every other row as it was |
| `EntityDao.Deleted` | src/main/java/com/example/crudapp/dao/EntityDAOImpl.java:42-50 | the DELETE leaves exactly the rows whose id differs |
| `EntityDao.Contains` | src/main/java/com/example/crudapp/dao/EntityDAOImpl.java:80 | `LIKE '%f%'` holds iff f occurs in the name as a contiguous substring |
| `EntityDao.Selected` | src/main/java/com/example/crudapp/dao/EntityDAOImpl.java:72-80 | definition only, no contract: a row is kept when the filter is null or empty, otherwise when its name is non-null and contains the filter (`NULL LIKE …` is not true) |
| `EntityDao.Filtered` | src/main/java/com/example/crudapp/dao/EntityDAOImpl.java:72-80 | the WHERE clause never yields more rows than the table has; which rows it keeps is `FilteredMembers` |
| `EntityDao.FilteredMembers` | src/main/java/com/example/crudapp/dao/EntityDAOImpl.java:72-80 | the WHERE clause keeps exactly the rows it selects: every row with no filter or an empty one, else the rows whose non-null name contains the filter |
| `EntityDao.FitsColumns` | src/main/java/com/example/crudapp/dao/Database.java:17 | definition only, no contract: a null or at most 50-character name and a null or at most 255-character description fit `VARCHAR(50)` and `VARCHAR(255)`; `AcceptedNameCanOverflowColumn` relates it to validity |
| `EntityDao.IdsUnique` | src/main/java/com/example/crudapp/dao/Database.java:17 | definition only, no contract: the `PRIMARY KEY`: no two rows share an id; `DeletedKeepsIdsUnique` and the DAO methods' contracts keep it |
| `EntityDao.GetAllResult` | src/main/java/com/example/crudapp/dao/EntityDAOImpl.java:69-94 | definition only, no contract: page `page` of size `pageSize` of the filtered rows; `EntityDAOImpl.GetAll` is proved to compute it |
| `EntityDao.Table.constructor` | src/main/java/com/example/crudapp/dao/Database.java:17 | a new table is empty and its first generated key is 1 |
| `EntityDao.Table.Valid` | src/main/java/com/example/crudapp/dao/Database.java:17 | definition only, no contract: the `AUTO_INCREMENT` key is unique, every row's id lies between 1 and the next key, and the next key is at least 1 |
| `EntityDao.EntityDAOImpl.constructor` | src/main/java/com/example/crudapp/dao/EntityDAOImpl.java:9 | the DAO works on the given table for its whole life |
| `EntityDao.EntityDAOImpl.Add` | src/main/java/com/example/crudapp/dao/EntityDAOImpl.java:12-26 | when the values fit their columns, appends one row with the entity's name and description under the next key, sets the entity's id to that key, which is non-zero and new; otherwise nothing changes; the key stays unique |
| `EntityDao.EntityDAOImpl.Update` | src/main/java/com/example/crudapp/dao/EntityDAOImpl.java:29-39 | when the values fit, rewrites name and description of the row with the entity's id; otherwise nothing changes; the key stays unique |
| `EntityDao.EntityDAOImpl.Delete` | src/main/java/com/example/crudapp/dao/EntityDAOImpl.java:42-50 | removes the row with the id, keeping the others and the key unique |
| `EntityDao.EntityDAOImpl.Get` | src/main/java/com/example/crudapp/dao/EntityDAOImpl.java:53-66 | returns the row with the id, or null when none has it |
| `EntityDao.EntityDAOImpl.GetAll` | src/main/java/com/example/crudapp/dao/EntityDAOImpl.java:69-94 | the rows read are the (page-1)·pageSize-offset slice of the selected rows, at most pageSize of them, each a selected table row |
| `EntityDao.DeletedKeepsIdsUnique` | src/main/java/com/example/crudapp/dao/Database.java:17 | deleting never breaks the primary key |
| `EntityDao.LookupAppend` | src/main/java/com/example/crudapp/dao/EntityDAOImpl.java:13-21 | after appending a row, old ids find what they found before and the new id finds the new row |
| `EntityDao.AddThenGet` | src/test/java/com/example/crudapp/dao/EntityDAOImplTest.java:43-51 | get of the generated key returns the added name and description; other ids are unaffected |
| `EntityDao.UpdateThenGet` | src/test/java/com/example/crudapp/dao/EntityDAOImplTest.java:63-72 | after an update, get of a known id returns the new values and an unknown id stays absent |
| `EntityDao.UpdateAddedRow` | src/test/java/com/example/crudapp/dao/EntityDAOImplTest.java:63-72 | updating the row just added rewrites that row only |
| `EntityDao.UpdateKeepsOthers` | src/main/java/com/example/crudapp/dao/EntityDAOImpl.java:30 | an update leaves what every other id finds unchanged |
| `EntityDao.UpdateUnknownIsNoop` | src/main/java/com/example/crudapp/dao/EntityDAOImpl.java:30-35 | updating an id no row has changes nothing |
| `EntityDao.DeleteThenGet` | src/test/java/com/example/crudapp/dao/EntityDAOImplTest.java:75-81 | after delete(id), get(id) is null, and every other id finds what it found before |
| `EntityDao.DeleteCount` | src/main/java/com/example/crudapp/dao/EntityDAOImpl.java:43-46 | delete removes one row when the id is present and changes nothing otherwise |
| `EntityDao.AddThenDeleteRestores` | src/test/java/com/example/crudapp/dao/EntityDAOImplTest.java:75-81 | deleting the key just added gives back the table's rows as they were |
| `EntityDao.NoFilterKeepsAll` | src/main/java/com/example/crudapp/dao/EntityDAOImpl.java:72-73 | a null or an empty filter keeps every row in order |
| `EntityDao.GetAllPagesCoverFiltered` | src/main/java/com/example/crudapp/dao/EntityDAOImpl.java:75-83 | reading getAll's pages from 1 to the last yields exactly the sequence of selected rows, in scan order |
| `EntityDao.GetAllTwoRows` | src/test/java/com/example/crudapp/dao/EntityDAOImplTest.java:53-60 | with two rows, `getAll(1, 10, null)` returns both |
| `EntityDao.AcceptedNameCanOverflowColumn` | src/main/java/com/example/crudapp/dao/Database.java:17 | some name that setName accepts is too long for `VARCHAR(50)`; for a valid entity, fitting the columns depends only on the raw name length ≤ 50 |
| `DaoScenarios.AddAndGet` | src/test/java/com/example/crudapp/dao/EntityDAOImplTest.java:43-51 | for any name and description the entity accepts and the columns hold: add then get gives a non-zero key and a row carrying the added name and description |
| `DaoScenarios.UpdateAndGet` | src/test/java/com/example/crudapp/dao/EntityDAOImplTest.java:63-72 | for any storable values: add, rename, update, get reads back the new name with the original description |
| `DaoScenarios.DeleteAndGet` | src/test/java/com/example/crudapp/dao/EntityDAOImplTest.java:75-81 | for any storable values: add, delete, get finds nothing and leaves the rows as before the add |
| `DaoScenarios.PlainValuesStorable` | src/main/java/com/example/crudapp/model/Entity.java:34-50 | a name of 3..50 characters with no blank at either end, with a description of at most 255, is accepted by the setters and fits both columns |
| `DaoScenarios.TestValuesStorable` | src/test/java/com/example/crudapp/dao/EntityDAOImplTest.java:43-81 | the names and descriptions every DAO test uses (including `testGetAll`'s "Name1"/"Desc1" and "Name2"/"Desc2") are all storable, so the three scenarios cover the add, update and delete tests |
| `DialogControl.DialogCheckAgreesWithSetName` | src/main/java/com/example/crudapp/controller/EntityDialogController.java:55 | the dialog's name check accepts exactly the names setName accepts, so the setName call at line 60 never throws |
| `DialogControl.DialogNameExamples` | src/test/java/com/example/crudapp/controller/EntityDialogControllerTest.java:73-85 | the dialog rejects a 1- and a 51-character name and accepts "Valid Name" |
| `DialogControl.NameFieldAccepted` | src/main/java/com/example/crudapp/controller/EntityDialogController.java:55 | definition only, no contract: the dialog's own copy of the name rule; `DialogCheckAgreesWithSetName` proves it equal to `IsValidName` |
| `DialogControl.EntityDialogController.constructor` | src/main/java/com/example/crudapp/controller/EntityDialogController.java:15-21 | a new dialog has empty text controls and holds no entity |
| `DialogControl.EntityDialogController.SetEntity` | src/main/java/com/example/crudapp/controller/EntityDialogController.java:37-45 | a non-null entity is held and its name and description are copied into the two controls; null always ends in the constructor's name exception with no entity held |
| `DialogControl.EntityDialogController.ProcessResult` | src/main/java/com/example/crudapp/controller/EntityDialogController.java:51-63 | returns false and touches nothing when the name text fails; otherwise writes the name, then returns true with the description written, or throws the description message with the new name kept and the description unchanged; a valid entity stays valid |
| `MainControl.PageCount` | src/main/java/com/example/crudapp/controller/MainController.java:74-78 | the page count is at least 1, its pages hold every item, and one page fewer would not unless it is 1 |
| `MainControl.PagesFor` | src/main/java/com/example/crudapp/controller/MainController.java:75 | the pages of 10 needed for a total of items (also line 170): they hold every item, and one page fewer would not |
| `MainControl.PageCountIsLeast` | src/main/java/com/example/crudapp/controller/MainController.java:75-78 | no smaller count of at least 1 page holds every item |
| `MainControl.LastPageIndex` | src/main/java/com/example/crudapp/controller/MainController.java:169-173 | the last-page index is 0 or starts before the last item |
| `MainControl.LastPageIsLastShown` | src/main/java/com/example/crudapp/controller/MainController.java:169-174 | for the same total, the index jumped to after an add equals the page count minus 1, so it is always a valid index |
| `MainControl.SortAscending` | src/main/java/com/example/crudapp/controller/MainController.java:70 | sorting is descending exactly when "Name (Z-A)" is selected |
| `MainControl.IndexAfterDelete` | src/main/java/com/example/crudapp/controller/MainController.java:129-132 | the index drops by one exactly when the shown list had one item and the index was above 0; otherwise it is unchanged |
| `MainControl.MainController.constructor` | src/main/java/com/example/crudapp/controller/MainController.java:40-42 | a new controller is at index 0 with one page, so its page-count invariant holds; nothing is shown, the search text is empty and no sort is chosen |
| `MainControl.MainController.Valid` | src/main/java/com/example/crudapp/controller/MainController.java:76-78 | definition only, no contract: the page count is at least 1, which the constructor sets up and every handler keeps |
| `MainControl.MainController.UpdateView` | src/main/java/com/example/crudapp/controller/MainController.java:67-84 | requests page index + 1 of 10 with the search text, sort choice and direction; sets the page count from the total and shows the page found |
| `MainControl.MainController.Initialize` | src/main/java/com/example/crudapp/controller/MainController.java:58-64 | selects "Date", so the first request sorts ascending, then updates the view |
| `MainControl.MainController.HandleSearch` | src/main/java/com/example/crudapp/controller/MainController.java:99-102 | a search resets the index to 0 and so requests page 1 |
| `MainControl.MainController.HandleDeleteEntity` | src/main/java/com/example/crudapp/controller/MainController.java:118-136 | after a confirmed delete the index is `IndexAfterDelete` of the shown list's size and the old index, then the view is updated |
| `MainControl.MainController.ShowLastPageAfterAdd` | src/main/java/com/example/crudapp/controller/MainController.java:167-175 | after an add the index is the last page, equal to the page count minus 1 (as written the add path never gets here: `setEntity(null)` throws first, see above) |
| `ListControl.DecimalString` | src/main/java/com/example/crudapp/controller/EntityController.java:50 | the page number renders as one or more decimal digits with no leading zero |
| `ListControl.DecimalRoundTrip` | src/main/java/com/example/crudapp/controller/EntityController.java:50 | reading the rendered digits back gives the page number |
| `ListControl.PageLabel` | src/main/java/com/example/crudapp/controller/EntityController.java:50 | the label starts with "Page " followed by the number |
| `ListControl.PageLabelInjective` | src/main/java/com/example/crudapp/controller/EntityController.java:50 | different pages get different labels |
| `ListControl.EntityController.constructor` | src/main/java/com/example/crudapp/controller/EntityController.java:30-33 | a new controller is on page 1 with an empty filter |
| `ListControl.EntityController.Valid` | src/main/java/com/example/crudapp/controller/EntityController.java:64-69 | definition only, no contract: `currentPage` is at least 1, which the constructor sets up and every handler keeps |
| `ListControl.EntityController.LoadEntities` | src/main/java/com/example/crudapp/controller/EntityController.java:46-51 | shows `getAll(currentPage, 10, filter)`, at most 10 rows, and labels it "Page " + currentPage |
| `ListControl.EntityController.Initialize` | src/main/java/com/example/crudapp/controller/EntityController.java:36-44 | the first load shows page currentPage of the filtered rows |
| `ListControl.EntityController.FilterEntities` | src/main/java/com/example/crudapp/controller/EntityController.java:53-56 | a filter change resets currentPage to 1 and reloads with the new filter |
| `ListControl.EntityController.HandlePreviousPage` | src/main/java/com/example/crudapp/controller/EntityController.java:64-69 | decrements and reloads only above page 1; on page 1 nothing changes; currentPage stays ≥ 1 |
| `ListControl.EntityController.HandleNextPage` | src/main/java/com/example/crudapp/controller/EntityController.java:72-75 | increments by one with no upper bound and reloads |

## Left out

- The JavaFX user interface: widgets, FXML loading, dialogs, alerts and `alertDisplayer`, selection and mouse listeners, `MainApp`, `Launcher`, the test base class and the mock-only `MainControllerTest`.
- `getCount` (called by `MainController` at lines 74 and 169), `search` (called by `MainController` at line 82 and mocked by `MainControllerTest`) and `setDialogSupplier` (called only by `MainControllerTest` at line 80) are not part of `EntityDAO`, nor of `MainController` or any implementation shown; their results enter `MainController`'s methods as parameters, and no predicate or sort order is claimed for them.
- The DAO calls `MainController` makes (`delete` of a UUID id, `add`/`update` after the dialog) are not connected to the DAO model: the shown `Entity` has UUID ids while the DAO takes int ids. The model uses int ids throughout.
- `get` and `getAll` build results with a 3-argument `Entity` constructor that `Entity.java` does not have; the model returns the rows themselves, without re-validating them.
- The JavaFX `Pagination` widget's own behaviour: clamping the index to the page count, and the listener that re-runs `updateView` whenever the index changes. `MainControl.MainController.HandleDeleteEntity` models only a confirmed delete with an item selected. The widgets' initial state comes from FXML, which is not part of this model; `MainControl.MainController.constructor` starts at index 0 with one page.
- `DialogControl.EntityDialogController.SetEntity`: the text controls are modelled as holding the set text verbatim; JavaFX's filtering of control characters on `setText` (a `TextField` drops characters below U+0020 and U+007F, a `TextArea` keeps tab and newline) is not modelled, so a stored name such as one containing a tab is copied back by `ProcessResult` unchanged here.
- `MainControl.MainController.ShowLastPageAfterAdd`: the two `getCount` calls of an add are taken to return the same total.
- `Database.java`'s connection handling and schema creation; only the declared schema (identity key, `VARCHAR(50)`, `VARCHAR(255)`) is modelled. Of all `SQLException`s, only the column-width failures are modelled; connection and other storage failures are not.
- `EntityDao.EntityDAOImpl.Add`: whether the identity counter advances on a failed insert is not modelled; the model leaves it unchanged.
- `EntityDao.EntityDAOImpl.GetAll`: requires page ≥ 1 and pageSize > 0; a negative OFFSET or a zero LIMIT is left to the database and not modelled.
- `EntityDao.Contains`: `%`, `_` and H2's default LIKE escape character `\` inside the filter are treated as literal characters, and comparison is exact (no collation or case folding).
- `EntityDao.Filtered`: SQL without ORDER BY promises no row order; the model fixes the scan order to insertion order, which the page-concatenation lemmas rely on.
- Java `int` widths are not modelled: ids, the identity counter, page numbers and the offset `(page - 1) * pageSize` are unbounded integers, so overflow at 2^31 is not captured.
- `ListControl.EntityController.HandleNextPage`: does not model the wrap-around of `currentPage++` at `Integer.MAX_VALUE`, because integers are unbounded here.
- `MainControl.PageCount`: `Math.ceil` over a double quotient is modelled as exact integer ceiling division, which agrees for every non-negative Java int.
- Timestamps (`LocalDateTime`) are opaque values; the DAO never reads or writes them.
- Strings range over characters outside the surrogate range: a Dafny `char` is a Unicode scalar value, so a Java string holding a supplementary character (two UTF-16 code units, counted as 2 by `String.length()`) has no counterpart. For the strings modelled, `|s|` equals `String.length()`. A null text in a JavaFX text control is carried as `None`.
- `EntityController.handleNewEntity` has an empty body and nothing to model.
