# archivist-keeper in Dafny

archivist-keeper is a web application for an archive. Its data is a hierarchy: fonds, then
departments (compartimente), then yearly inventories (inventare), then case records
(dosare). It runs on a hosted relational store with two administrator edge functions. This
project models the rules the application states in its own code, and proves what those
rules promise. The rules are:

- the form schemas (`src/lib/validations.ts`, and the password form);
- the spreadsheet export and import of case records, the add form, and the edit lock an
  administrator takes on an inventory (`src/pages/Inventare.tsx`, `src/pages/Dosare.tsx`);
- the fond-access editor (`src/components/UserManagement.tsx`);
- the labels of the activity log (`src/pages/Istoric.tsx`);
- the `delete-user` and `create-admin` edge functions;
- the password page's update handler;
- the database page's access gate and table counts;
- the search boxes of the fond and department lists.

The spreadsheet import maps every sheet row field by field with JavaScript `||` and sends
the whole batch in one insert (`src/pages/Dosare.tsx:180-192`). It does not look for a
header row, does not check the record numbers and does not apply the record schema. The
repository has no generator of printable labels.

Where the code calls the datastore, the authentication service or the clock, the model
takes the answer as a parameter (a value, or a function from the query's key to the
answer). State that a page or a row updates in place is a class: the lock columns of an
inventory row, the records page, the access editor and the password page. The writes a
page or an edge function sends are recorded in order, as a log the methods return or
extend.

Modules, one per source file, plus three shared ones:

- `Wrappers`: `Option`;
- `Js`: JavaScript values, truthiness and `||`, `toLowerCase`, `includes`, integer text and
  `parseInt`, `split('@')[0]` and `replace`;
- `Seqs`: `filter` and `map` with their order, membership and idempotence lemmas;
- `EdgeHttp`: what both edge functions share.

## Model

| member | source | states |
|---|---|---|
| Validations.AuthIssues | src/lib/validations.ts:4-12 | a sign-in form is accepted iff the username has 3 to 50 characters, all letters, digits, `_` or `-`, and the password 6 to 100; a too-short username reports its message first |
| Validations.LengthIssues | src/lib/validations.ts:5-7 | a string check reports nothing iff the length lies between the bounds, and a too-short string reports the minimum's message first |
| Validations.FondIssues | src/lib/validations.ts:15-19 | a fond name is accepted iff it has 1 to 200 characters |
| Validations.CompartimentIssues | src/lib/validations.ts:22-26 | a department name is accepted iff it has 1 to 200 characters |
| Validations.InventarIssues | src/lib/validations.ts:29-38 | an inventory is accepted iff its year is an integer in [1900, 2100] and its retention term an integer in [1, 999] |
| Validations.IntegerRangeIssues | src/lib/validations.ts:30-33 | an `int().min().max()` number check passes iff the number is an integer within the bounds |
| Validations.PositiveIntegerIssues | src/lib/validations.ts:42-45 | an `int().positive().max()` number check passes iff the number is an integer from 1 to the maximum |
| Validations.ObservatiiIssues | src/lib/validations.ts:59-61 | the remarks pass iff absent, or a string of at most 500 characters; null is refused |
| Validations.NrCutieIssues | src/lib/validations.ts:62-67 | the box number passes iff absent, null, or an integer in [1, 9999] |
| Validations.DosarIssues | src/lib/validations.ts:41-68 | a case record is accepted iff every field meets its rule: numbers in [1, 999999], texts of 1..100, 1..1000 and 1..100 characters, and the two optional fields as above |
| Validations.EmptyObservatiiAccepted | src/lib/validations.ts:59-61 | empty remarks are accepted, null remarks are not |
| Js.OrTruthy | src/pages/Dosare.tsx:181-188 | `a \|\| b` is truthy iff one of them is, and is one of the two |
| Js.ParseIntOfIntToString | src/pages/Dosare.tsx:109-115 | `parseInt` of an integer's decimal text gives back that integer |
| Js.BeforeAt | supabase/functions/delete-user/index.ts:108 | `split('@')[0]` is the prefix before the first `@` and holds no `@` |
| Js.RemoveFirstPrefix | supabase/functions/delete-user/index.ts:30 | removing a pattern from a string that starts with it leaves the rest |
| Js.RemoveFirstAbsent | supabase/functions/delete-user/index.ts:30 | a string without the pattern is left unchanged |
| Js.RemoveFirstRemovesFirst | supabase/functions/delete-user/index.ts:30 | `replace` with a string pattern cuts out the pattern's first occurrence, wherever it stands, and keeps what is before and after it; a string without the pattern is unchanged |
| Inventare.FilteredInventare | src/pages/Inventare.tsx:168-172 | an inventory is kept iff the decimal text of its year, retention term or record count contains the term |
| Inventare.FilteredInventareInOrder | src/pages/Inventare.tsx:168-172 | the filtered inventories keep the list's order |
| Inventare.EmptySearchKeepsAllInventare | src/pages/Inventare.tsx:168-172 | an empty term keeps every inventory |
| Inventare.DecideClick | src/pages/Inventare.tsx:132-147 | a non-administrator opens the records; an administrator is refused iff the loaded row shows another holder |
| Inventare.InventarLockRow.HandleInventarClick | src/pages/Inventare.tsx:132-166 | no write for a non-administrator or a refused click; otherwise the lock is written to the caller and the records open iff the write succeeded; the row follows `NextLockedBy` |
| Inventare.InventarLockRow.ReleaseIfHeldBy | src/pages/Dosare.tsx:97-101 | the lock is cleared iff it is held by the given user; otherwise the row is unchanged |
| Inventare.OnlyHolderChangesLock | src/pages/Inventare.tsx:140-153 | while an administrator holds the lock, no sequence of other users' clicks and releases changes it |
| Inventare.HolderReentersAndReleases | src/pages/Dosare.tsx:95-103 | the holder's own click keeps its lock and its own release frees it |
| Inventare.FreeLockIsTaken | src/pages/Inventare.tsx:133-165 | a free inventory goes to an administrator whose write succeeds and never to a non-administrator |
| Dosare.ExportRow | src/pages/Dosare.tsx:149-157 | one export row has exactly the seven display headers; empty or null remarks and a null or 0 box number become `""` |
| Dosare.Export | src/pages/Dosare.tsx:147-158 | the export has one row per record, in order |
| Dosare.Import | src/pages/Dosare.tsx:180-190 | the import batch has one record per sheet row, in order |
| Dosare.ImportFieldRule | src/pages/Dosare.tsx:180-190 | each of the seven fields takes the display-header value when truthy, else the snake_case value; the remarks and the box number fall back further to null when both are falsy, so they are null or truthy; every record carries the inventory id |
| Dosare.ReadBackCell | src/pages/Dosare.tsx:181-188 | a written cell read back through its header is the cell when truthy and `undefined` otherwise |
| Dosare.RoundTripRecord | src/pages/Dosare.tsx:147-190 | re-importing an exported record gives back each of the five required fields when it is truthy (and `undefined` otherwise), the remarks and box number when non-empty and non-zero (and null otherwise), and the importing inventory's id |
| Dosare.RoundTrip | src/pages/Dosare.tsx:147-190 | an exported list re-imports to one record per record, in order, each with all seven fields as for one record |
| Dosare.FormToInsert | src/pages/Dosare.tsx:107-118 | the add form sends the numbers through `parseInt`, empty remarks as null, and an empty box number as null (otherwise parsed) |
| Dosare.FormNumbersRoundTrip | src/pages/Dosare.tsx:109-115 | the record number, the sheet count and the box number typed as their decimal text are stored as those numbers |
| Dosare.DosarePage.CheckAdmin | src/pages/Dosare.tsx:54-66 | with a signed-in user, the page records its id and role; with none, nothing changes |
| Dosare.DosarePage.HandleAdd | src/pages/Dosare.tsx:105-145 | one single-record insert; on success the form is cleared and the dialog closed; on failure both are kept, and the duplicate message shows iff the error mentions "duplicate" |
| Dosare.DosarePage.HandleImport | src/pages/Dosare.tsx:168-209 | without a file nothing happens; otherwise one bulk insert of the mapped batch, and the success message counts the sheet's rows |
| Dosare.DosarePage.UnlockInventar | src/pages/Dosare.tsx:95-103 | the lock is released iff the page's user is an administrator with a known id who holds it |
| Dosare.DosarePage.UnmountAsWritten | src/pages/Dosare.tsx:44-52 | the cleanup releases only under the state of the render the effect ran in |
| Dosare.DosarePage.Unmount | src/pages/Dosare.tsx:44-52 | the corrected cleanup releases a lock the current administrator holds |
| Dosare.LeaveByNavigationAsWritten | src/pages/Dosare.tsx:44-52 | an administrator who opens an inventory and leaves other than by the back button leaves it locked |
| Dosare.LeaveByNavigation | src/pages/Dosare.tsx:44-52 | with the corrected cleanup the same visit frees the inventory |
| UserManagement.CurrentAccess | src/components/UserManagement.tsx:135-137 | the current fonds are exactly the fond ids of the user's access rows |
| UserManagement.CurrentAccessAppend | src/components/UserManagement.tsx:135-137 | the current fonds follow the order of the access rows |
| UserManagement.UserFondCountIsCurrentAccess | src/components/UserManagement.tsx:202-204 | the count in the user table equals the number of the user's access rows |
| UserManagement.Toggled | src/components/UserManagement.tsx:143-149 | toggling flips the fond's membership and no other; a selected fond loses every occurrence, an unselected one is appended at the end |
| UserManagement.ToggleTwice | src/components/UserManagement.tsx:143-149 | toggling a fond twice restores the selection's membership |
| UserManagement.AccessDiff | src/components/UserManagement.tsx:161-162 | `toAdd` holds no current fond; `toRemove` holds exactly the current fonds not selected; as sets, current minus `toRemove` plus `toAdd` is the selection |
| UserManagement.UnchangedSelectionNoWork | src/components/UserManagement.tsx:161-174 | a selection with the same fonds as the current ones gives nothing to add or remove |
| UserManagement.NewAccessRows | src/components/UserManagement.tsx:175-178 | one new access row per fond to add, for the edited user |
| UserManagement.Deleted | src/components/UserManagement.tsx:166-170 | the delete keeps only rows that are not the user's rows for the listed fonds |
| UserManagement.DeletedKeepsOthers | src/components/UserManagement.tsx:166-170 | the delete leaves other users' access unchanged |
| UserManagement.DeletedAccess | src/components/UserManagement.tsx:166-170 | after the delete the user keeps a fond iff it was current and not listed |
| UserManagement.NewRowsAccess | src/components/UserManagement.tsx:175-182 | the inserted rows give the user exactly the added fonds |
| UserManagement.SaveAccessEffect | src/components/UserManagement.tsx:156-183 | after the save's requests the user's fonds are exactly the selection and every other user's access is unchanged |
| UserManagement.AccessEditor.HandleManageAccess | src/components/UserManagement.tsx:131-141 | opening the editor selects the user's current fonds |
| UserManagement.AccessEditor.ToggleFondAccess | src/components/UserManagement.tsx:143-149 | the selection becomes its toggled copy |
| UserManagement.AccessEditor.SaveAccess | src/components/UserManagement.tsx:151-200 | without an edited user nothing happens; otherwise the delete is sent only when there is something to remove, then the insert only when there is something to add, and the dialog closes |
| Istoric.TableLabel | src/pages/Istoric.tsx:49-54 | the four known tables get their Romanian names; any other name is shown as it is |
| Istoric.DataActionLabel | src/pages/Istoric.tsx:56-63 | INSERT, UPDATE and DELETE get their Romanian names; any other action is shown as it is |
| Istoric.ActionLabel | src/pages/Istoric.tsx:43-66 | the four session and spreadsheet actions get fixed labels; any other action gets its label alone for a null or empty table, and its label, a space and the table's label otherwise |
| Istoric.SessionLabelIgnoresTable | src/pages/Istoric.tsx:44-47 | a session or spreadsheet action's label does not depend on the table |
| Istoric.LabelEmptyOnlyWithoutAction | src/pages/Istoric.tsx:62-65 | a label is empty iff the action is empty and there is no table |
| Istoric.LabelSplitsAtSpace | src/pages/Istoric.tsx:65 | a label with a table splits at its first space into the action's label and the table's label |
| Istoric.KnownWriteLabels | src/pages/Istoric.tsx:49-65 | an insert of records reads "Adăugare Dosar"; an unknown action and table pass through |
| EdgeHttp.BearerToken | supabase/functions/delete-user/index.ts:30 | the token is the header with its first "Bearer " cut out, wherever it stands; a header without "Bearer " is the token itself |
| EdgeHttp.BearerTokenOfHeader | supabase/functions/create-admin/index.ts:32 | the token of "Bearer t" is t |
| EdgeHttp.CheckCaller | supabase/functions/delete-user/index.ts:22-53 | the caller checks fail at the first of: no header, a token that resolves to no user, a user without the admin role; a caller who passes is that user, with the role |
| DeleteUser.UuidOfGroups | supabase/functions/delete-user/index.ts:68 | 8-4-4-4-12 hex groups with version digit 4 and a variant digit 8, 9, a or b form an accepted id |
| DeleteUser.UuidGroups | supabase/functions/delete-user/index.ts:68 | every accepted id is such a join of its groups |
| DeleteUser.UuidIgnoresCase | supabase/functions/delete-user/index.ts:68 | an id is accepted iff its lower-cased form is |
| DeleteUser.UuidExampleVersion1 | supabase/functions/delete-user/index.ts:68 | an id with version digit 1 is refused |
| DeleteUser.GuardDeleteUser | supabase/functions/delete-user/index.ts:22-77 | the request proceeds iff the caller is an administrator and the body's `userId` is a truthy string in UUID form; 401 iff authentication failed, 403 iff not an administrator, 500 with the error's message iff the body is unreadable; a refused administrator with a readable body gets 400 with the missing-id message for a falsy `userId` and the bad-format message otherwise |
| DeleteUser.AuditUsername | supabase/functions/delete-user/index.ts:108 | the administrator's name in the audit row is the profile name, else the e-mail's local part, else "unknown"; never empty |
| DeleteUser.AuditUsernameFromEmail | supabase/functions/delete-user/index.ts:108 | without a profile name, an address `name@domain` gives `name` |
| DeleteUser.DeletionAudit | supabase/functions/delete-user/index.ts:106-116 | the audit row records the caller, action DELETE on `auth.users`, the deleted id, the deleted user's name (or "unknown") and the time |
| DeleteUser.HandleDeleteUser | supabase/functions/delete-user/index.ts:4-135 | OPTIONS answers "ok" with no writes; a refused request writes nothing; a failed deletion answers 400 and writes no audit row; a success deletes, then audits, then answers 200; an account is deleted only for an administrator and a well-formed id |
| CreateAdmin.FullAccessDefault | supabase/functions/create-admin/index.ts:58 | an absent `full_access` does not ask for full access |
| CreateAdmin.AdminEmail | supabase/functions/create-admin/index.ts:99 | the account's address is the username followed by "@inventory.local" |
| CreateAdmin.AdminEmailInjective | supabase/functions/create-admin/index.ts:99 | distinct usernames get distinct addresses |
| CreateAdmin.GuardCreateAdmin | supabase/functions/create-admin/index.ts:22-95 | the checks run in order (header 401, token 401, role 403, unreadable body 500, missing field 400, short username 400, short password 400, taken username 400) and the request proceeds iff all pass |
| CreateAdmin.GuardStatuses | supabase/functions/create-admin/index.ts:23-95 | every refusal is 400, 401, 403 or 500, and a 400 carries one of the four body messages |
| CreateAdmin.CreationAudit | supabase/functions/create-admin/index.ts:136-153 | the audit row records the caller (name or "unknown"), action CREATE_ADMIN on `user_roles`, the new id and the created username |
| CreateAdmin.HandleCreateAdmin | supabase/functions/create-admin/index.ts:5-171 | OPTIONS answers with no body; a refused request creates nothing; a creation error answers 400 and a missing user 500; a success creates the account, sets full access only when asked, audits, and answers 200 with the message |
| PasswordManagement.PasswordIssues | src/pages/PasswordManagement.tsx:11-14 | the form is valid iff the username is non-empty and the new password has at least 6 characters, and the username's message comes first |
| PasswordManagement.SignInPasswordsAccepted | src/pages/PasswordManagement.tsx:11-14 | every username and password the sign-in schema accepts are accepted here |
| PasswordManagement.FailureDescription | src/pages/PasswordManagement.tsx:97-99 | a failed update shows the function's error when non-empty, else the default message |
| PasswordManagement.PasswordPage.HandleUpdatePassword | src/pages/PasswordManagement.tsx:68-125 | an invalid form sends nothing and shows the first issue; without a session nothing is sent; otherwise one request; an exception (rejected request or non-JSON answer) shows its message and keeps the inputs, as does an answer that is not ok; the inputs are cleared only after an ok answer; loading ends false |
| DatabaseManagement.CheckAccess | src/pages/DatabaseManagement.tsx:32-60 | access is granted iff there is a session and its profile's username is "ghitaoarga" |
| DatabaseManagement.CountOrZero | src/pages/DatabaseManagement.tsx:110 | a null count is 0 |
| DatabaseManagement.LoadTableCounts | src/pages/DatabaseManagement.tsx:93-114 | one entry per listed table, in the listed order, with its count (null as 0) |
| DatabaseManagement.TotalAppend | src/pages/DatabaseManagement.tsx:166 | adding a card adds its count to the total |
| DatabaseManagement.TotalBounds | src/pages/DatabaseManagement.tsx:166 | the total is at least each count, and zero iff every count is zero |
| DatabaseManagement.TotalIsCountSum | src/pages/DatabaseManagement.tsx:166 | the total of cards holding the datastore's counts is the sum of those counts |
| DatabaseManagement.LoadedSummary | src/pages/DatabaseManagement.tsx:166-171 | after loading there are seven tables and the total is the sum of their counts |
| DatabaseManagement.RecordLabel | src/pages/DatabaseManagement.tsx:151 | a count is labelled "înregistrare" iff it is exactly 1, otherwise "înregistrări" |
| NameSearch.FilterByName | src/pages/Fonduri.tsx:165-167 | an item is kept iff its lower-cased name contains the lower-cased term |
| NameSearch.FilterByNameOrderAndIdempotence | src/pages/Fonduri.tsx:165-167 | the result keeps the list's order, and searching it again changes nothing |
| NameSearch.EmptyTermKeepsAll | src/pages/Compartimente.tsx:121-123 | an empty term keeps every item |
| NameSearch.TermCaseIgnored | src/pages/Compartimente.tsx:121-123 | the term's lower-cased form finds the same items |
| NameSearch.DisplayConditions | src/pages/Fonduri.tsx:277-285 | "no match" shows iff the list has items and none matches; it never shows with "none exist", nor for an empty term |
| Fonduri.FilteredFonduri | src/pages/Fonduri.tsx:165-167 | a fond is kept iff its lower-cased name contains the lower-cased term |
| Fonduri.FonduriSearch | src/pages/Fonduri.tsx:165-285 | the fond search keeps order, is idempotent, ignores the term's case and keeps all for an empty term; "no match" shows iff fonds exist and none matches, never together with "none exist" |
| Compartimente.FilteredCompartimente | src/pages/Compartimente.tsx:121-123 | a department is kept iff its lower-cased name contains the lower-cased term |
| Compartimente.CompartimenteSearch | src/pages/Compartimente.tsx:121-228 | the department search keeps order, is idempotent, ignores the term's case and keeps all for an empty term; "no match" shows iff departments exist and none matches, never together with "none exist" |

## Left out

- The datastore, the authentication service and their network calls. Their answers are parameters, and the store is modelled only where a rule reads it: the lock columns of an inventory row, and the access rows.
- The spreadsheet library: reading the file and writing the export file are not modelled. A sheet is given as its rows. `Dosare.ReadBack` states what the library may do between export and import: drop falsy cells, nothing else.
- React rendering, dialogs, toasts shown, navigation and routing. `src/App.tsx`, `src/pages/Index.tsx`, `src/components/Layout.tsx`, `src/pages/Auth.tsx` and `src/pages/CreateAdmin.tsx` are not part of this model.
- The one-second administrator polling of the list pages: it is timer-driven.
- The clock and dates. The timestamps written are parameters. The activity log's three-month window and the date formatting are not modelled.
- `supabase/functions/update-user-password/index.ts` and `supabase/functions/cleanup-audit-logs/index.ts` are not part of this model. The password page's request to the former is modelled only as the request it sends.
- `src/integrations/supabase/types.ts` is not part of this model. Field nullability follows it.
- The other operations of the modelled pages are not modelled: create, rename and delete of fonds and departments; the user deletion and user list of the access editor and the database page; loading lists. They only call the datastore.
- The page guards of the password page and the access editor's page (`checkAdminAccess`): they only call the datastore and navigate.
- Js.Lower: lower-cases ASCII and the Romanian letters with diacritics only, not the whole of Unicode.
- Js.ParseInt: recognises the JavaScript white space listed in `Js.IsJsSpace`, not every Unicode space separator.
- Validations.DosarIssues: lengths are counted in characters, not UTF-16 code units. Numbers are exact reals, so NaN, infinities and rounding are not modelled. The same holds for the other schemas and both edge functions' length checks.
- CreateAdmin.GuardCreateAdmin: `username` and `password` are modelled as absent, null or strings. A number or object in those keys (where `.length` would be undefined) is not modelled.
- DeleteUser.GuardDeleteUser: the body's `userId` is modelled as a string, number, boolean, null or absent value. An array or object is not modelled. A one-element array holding a well-formed id passes both checks, because the pattern test reads the array's text, and the array then reaches the profile lookup and the deletion.
- DeleteUser.HandleDeleteUser: the caller's profile is looked up after the deletion, and the lookups are one function of the id. When administrators delete their own account, that later lookup could find no profile, and the audit name would fall back to the e-mail's local part. The model does not capture this.
- DeleteUser.HandleDeleteUser: of the exceptions the handler catches, only an unreadable body is modelled. A thrown network error answers 500 in the same way. The CORS headers are left out. The same holds for CreateAdmin.HandleCreateAdmin.
- Istoric.ActionLabel: JavaScript object-prototype keys such as `constructor` are not looked up as inherited properties. The model treats them as unknown names.
- Inventare.InventarLockRow.HandleInventarClick: the click decides on the `locked_by` the page loaded, and writes by id without re-checking the row. Two administrators with stale lists can both take the lock, and the last write wins. The model exposes the loaded value as a parameter but does not model concurrent sessions. `Inventare.NextLockedBy` assumes the loaded value is current.
- UserManagement.AccessEditor.SaveAccess: as in the code, the datastore's answers are not inspected. The success message follows whatever they are, and the reload after saving is left out. Row ids are left out.

## Findings

| source | as written | input that shows it | evidently intended | confidence | as-written member | corrected member |
|---|---|---|---|---|---|---|
| src/pages/Dosare.tsx:44-52 | The mount effect's cleanup calls the `unlockInventar` of the first render. There `isAdmin` is false and `userId` is empty, so leaving the page by any route except the back button (lines 215-222) never releases the lock. | An administrator opens a free inventory, which takes its lock, then leaves the records page through the navigation bar. | Leaving the records page by any route releases the lock the administrator holds. | not executed; high | Dosare.LeaveByNavigationAsWritten | Dosare.LeaveByNavigation |
