# quickshare core, modelled in Dafny

This project models the parts of quickshare that decide what a user's actions do:

- the drag-and-drop upload zone of the web client: which dropped or picked files are
  admitted to the selection (type filter, duplicate check, file limit), the window-level
  drag counter that shows and hides the drop overlay, removal of a selected file and the
  upload button;
- the files page: toggling the selection, the download-button rule, opening directories
  from the listing and from the breadcrumb, the details URL, the new-folder path and the
  refetch rule;
- `splitPaths`, the path store and the `cwd` local-storage helpers;
- the multi-user handler of the server: the input validators, session reading, the
  `Login`, `SetPwd`, `ForceSetPwd`, `AddUser`, `DelUser`, `AddRole` and `DelRole`
  handlers, and the access-control tables built by `NewMultiUsersSvc`.

Modules, one per file:

- `Wrappers`: `Option`, `Result` and `Outcome`.
- `Subsequences`: order-preserving sub-sequences.
- `Paths`: `splitPaths`.
- `Storage`: `localStorage` as a class holding a string map, and `getCwd`/`setCwd`.
- `PathStore`: the zustand path store as a class.
- `FileAdmission`: the value-level rules of the upload zone.
- `DragZone`: the component's state as a class, one method per event handler.
- `FilesPage`: the page's selection and navigation.
- `MultiUsers`: the Go handlers.
- `AccessRules`: the rule tables.

Each server handler is a function. Its inputs are the bound request (`None` when binding
fails) and the results of the calls the handler makes: store lookups, bcrypt, token
encoding, the file system. Its result is the HTTP status together with the ordered log of
effectful calls it made, so properties such as "a password is stored only for the caller"
or "the record is deleted before the home folder" are statements about that log.

How `handleFiles` admits files (frontend/src/components/drag-zone.tsx:117-140):

- a file is a duplicate when the selection as it was before the call holds a file with
  the same name and size; two such files in one batch are both admitted;
- the limit counts only the files admitted by this call, not the existing selection;
- the loop visits every file: reaching the limit refuses the remaining files one by one
  rather than stopping.

## Model

| member | source | states |
|---|---|---|
| Paths.SplitPaths | frontend/src/utils/string.util.ts:10-18 | every segment is non-empty and contains no slash |
| Paths.JoinSplit | frontend/src/utils/string.util.ts:11 | splitting at `/` loses nothing: joining the pieces with `/` gives back the string |
| Paths.SplitJoin | frontend/src/utils/string.util.ts:11 | splitting a `/`-join of slash-free pieces gives back the pieces |
| Paths.DropEmptyAppend | frontend/src/utils/string.util.ts:15 | filtering empty parts distributes over concatenation |
| Paths.DropEmptyKeepsNonEmpty | frontend/src/utils/string.util.ts:15 | the filter keeps a list without empty parts unchanged |
| Paths.ConcatSplit | frontend/src/utils/string.util.ts:10-18 | the pieces, concatenated, are the string with its slashes removed |
| Paths.SegmentsInOrder | frontend/src/utils/string.util.ts:10-18 | the segments, concatenated, are the path with its slashes removed (nothing reordered or lost) |
| Paths.EmptyAndRootHaveNoSegments | frontend/src/utils/string.util.ts:10-18 | `""` and `"/"` have no segments |
| Paths.LeadingSlashIgnored | frontend/src/utils/string.util.ts:13-15 | a leading slash does not change the segments |
| Paths.TrailingSlashIgnored | frontend/src/utils/string.util.ts:13-15 | a trailing slash does not change the segments |
| Paths.RepeatedSlashIgnored | frontend/src/utils/string.util.ts:13-15 | `//` splits like `/` |
| Paths.SplitPathsAround | frontend/src/utils/string.util.ts:10-18 | the segments of `a/b` are those of `a` followed by those of `b` |
| Paths.SplitPathsExample | frontend/src/utils/string.util.ts:13-15 | `/a//b/` has segments `[a, b]` |
| Paths.RebuildCanonical | frontend/src/utils/string.util.ts:10-18 | a canonical absolute path is `/` plus its segments joined by `/` |
| Paths.SplitPathsIdempotent | frontend/src/utils/string.util.ts:10-18 | re-splitting the joined segments gives the same segments |
| Paths.AppendSegment | frontend/src/utils/string.util.ts:10-18 | appending `/name` adds exactly one segment, `name` |
| Storage.LocalStorage.SetItem | frontend/src/utils/storage.util.ts:6 | the key now holds the value and every other key is unchanged |
| Storage.LocalStorage.GetItem | frontend/src/utils/storage.util.ts:2 | the stored value of the key, or none |
| Storage.OrElse | frontend/src/utils/storage.util.ts:2 | JavaScript `\|\|`: the stored value when present and non-empty, else the fallback |
| Storage.GetCwd | frontend/src/utils/storage.util.ts:1-3 | the stored `cwd` when non-empty, else `/`; this is `StoredCwd` of the storage, the function the two lemmas below are about |
| Storage.SetCwd | frontend/src/utils/storage.util.ts:5-7 | storage gets `cwd` at key `cwd`, and every other key keeps its value |
| Storage.SetThenGetCwd | frontend/src/utils/storage.util.ts:1-7 | reading after writing `cwd` yields it, or `/` when the written value is empty |
| Storage.OtherKeysDoNotMatter | frontend/src/utils/storage.util.ts:1-3 | writing any other key does not change what `getCwd` returns |
| PathStore.InitialPath | frontend/src/stores/path.store.ts:9 | the stored `cwd` when non-empty, else `/qs/files` |
| PathStore.Store.constructor | frontend/src/stores/path.store.ts:9 | the store starts at the path read from local storage |
| PathStore.Store.SetPath | frontend/src/stores/path.store.ts:10 | `setPath` replaces the path |
| FileAdmission.Lower | frontend/src/components/drag-zone.tsx:98-102 | same length, and each character is lower-cased |
| FileAdmission.AfterLastDot | frontend/src/components/drag-zone.tsx:98 | `split(".").pop()`: a dot-free suffix of the name, the whole name when it has no dot, preceded by a dot otherwise |
| FileAdmission.FileExtension | frontend/src/components/drag-zone.tsx:98 | a dot followed by a dot-free, already lower-cased text |
| FileAdmission.TypeMatches | frontend/src/components/drag-zone.tsx:101-104 | an entry that does not start with a dot can only match through the MIME type |
| FileAdmission.SomeTypeMatches | frontend/src/components/drag-zone.tsx:99-105 | an empty list matches nothing and a matching first entry suffices; the full statement is `SomeTypeMatchesMeaning` |
| FileAdmission.ValidateFileType | frontend/src/components/drag-zone.tsx:94-97 | an empty allow-list admits every file |
| FileAdmission.SomeTypeMatchesMeaning | frontend/src/components/drag-zone.tsx:99-105 | `some` holds exactly when an entry matches |
| FileAdmission.ValidateFileTypeMeaning | frontend/src/components/drag-zone.tsx:94-106 | with a non-empty list, a file is valid iff some entry equals its lower-cased MIME type or its lower-cased `.extension` |
| FileAdmission.LowerIdempotent | frontend/src/components/drag-zone.tsx:98-103 | lower-casing twice is lower-casing once |
| FileAdmission.DotlessNameExtension | frontend/src/components/drag-zone.tsx:98 | a name without a dot has the whole lower-cased name as its extension |
| FileAdmission.AfterDot | frontend/src/components/drag-zone.tsx:98 | the text after the last dot of `stem.ext` is `ext` |
| FileAdmission.ExtensionAfterLastDot | frontend/src/components/drag-zone.tsx:98 | the extension of `stem.ext` is `.` plus `ext` lower-cased, whatever the stem |
| FileAdmission.EntryCaseIgnored | frontend/src/components/drag-zone.tsx:102-103 | the case of an allow-list entry does not matter |
| FileAdmission.MimeCaseIgnored | frontend/src/components/drag-zone.tsx:102 | the case of the file's MIME type does not matter |
| FileAdmission.IsDuplicate | frontend/src/components/drag-zone.tsx:121-124 | an empty selection holds no duplicate and a match at the front suffices; the full statement is `IsDuplicateMeaning` |
| FileAdmission.IsDuplicateMeaning | frontend/src/components/drag-zone.tsx:121-124 | a duplicate is a selected file with the same name and size |
| FileAdmission.Classify | frontend/src/components/drag-zone.tsx:119-139 | exactly one verdict, each stated as an iff over validity, duplication and the count admitted so far |
| FileAdmission.Scan | frontend/src/components/drag-zone.tsx:117-140 | one verdict per file, and never more than `maxFiles` admitted |
| FileAdmission.AdmittedInOrder | frontend/src/components/drag-zone.tsx:117-128 | the admitted files are a subsequence of the input, in input order |
| FileAdmission.ScanPrefix | frontend/src/components/drag-zone.tsx:117-140 | a file's verdict depends only on the files before it |
| FileAdmission.ScanLast | frontend/src/components/drag-zone.tsx:117-140 | the last file's verdict is its classification given the count admitted before it |
| FileAdmission.VerdictAt | frontend/src/components/drag-zone.tsx:117-140 | file `i`'s verdict is its classification given the count admitted among the first `i` |
| FileAdmission.AdmittedAreValidAndFresh | frontend/src/components/drag-zone.tsx:119-128 | every admitted file passes the type check and is not a duplicate of the prior selection |
| FileAdmission.LimitIsFinal | frontend/src/components/drag-zone.tsx:126-133 | once a file is refused for the limit, exactly `maxFiles` had been admitted and no later file gets in |
| FileAdmission.ScanAdmittedStep | frontend/src/components/drag-zone.tsx:126-128 | one more file extends the admitted list by that file exactly when it is admitted |
| FileAdmission.FreshStep | frontend/src/components/drag-zone.tsx:126-128 | a valid, fresh file is admitted exactly while the count is below the limit |
| FileAdmission.FreshFilesUpToLimit | frontend/src/components/drag-zone.tsx:117-140 | when every file is valid and fresh, the first `maxFiles` of them are admitted |
| FileAdmission.SameDropNotDeduplicated | frontend/src/components/drag-zone.tsx:121-124 | two files with the same name and size in one drop are both admitted |
| FileAdmission.Without | frontend/src/components/drag-zone.tsx:205-207 | the removed file is gone, every other file keeps its multiplicity, and the order is kept |
| FileAdmission.WithoutAbsent | frontend/src/components/drag-zone.tsx:205-207 | removing a file that is not selected changes nothing |
| FileAdmission.WithoutStep | frontend/src/components/drag-zone.tsx:205-207 | `filter` decomposes at the last element |
| FileAdmission.WithoutIdempotent | frontend/src/components/drag-zone.tsx:205-207 | removing twice is removing once |
| DragZone.AdmitFiles | frontend/src/components/drag-zone.tsx:113-140 | the loop's `newFiles` are the files the admission rules admit |
| DragZone.DragAndDropFileUpload.constructor | frontend/src/components/drag-zone.tsx:20-38 | the defaults (5 files, no type restriction) and the initial state |
| DragZone.DragAndDropFileUpload.OnWindowDragEnter | frontend/src/components/drag-zone.tsx:42-51 | the counter goes up and the overlay shows when it reaches 1 |
| DragZone.DragAndDropFileUpload.OnWindowDragLeave | frontend/src/components/drag-zone.tsx:53-62 | the counter goes down and the overlay hides when it reaches 0 |
| DragZone.DragAndDropFileUpload.OnWindowDrop | frontend/src/components/drag-zone.tsx:69-76 | the counter is reset and the overlay hidden |
| DragZone.DragAndDropFileUpload.HandleFiles | frontend/src/components/drag-zone.tsx:109-155 | no file list changes nothing; otherwise the admitted files are appended and reported to the callback |
| DragZone.DragAndDropFileUpload.OnFileInputChange | frontend/src/components/drag-zone.tsx:158-168 | the message is cleared, then the files are handled |
| DragZone.DragAndDropFileUpload.OnDropzoneDragOver | frontend/src/components/drag-zone.tsx:171-178 | the zone is highlighted and the message cleared |
| DragZone.DragAndDropFileUpload.OnDropzoneDragLeave | frontend/src/components/drag-zone.tsx:180-186 | the highlight is removed and nothing else changes |
| DragZone.DragAndDropFileUpload.OnDropzoneDrop | frontend/src/components/drag-zone.tsx:188-196 | the highlight is removed, the message cleared and the dropped files handled |
| DragZone.DragAndDropFileUpload.HandleRemoveFile | frontend/src/components/drag-zone.tsx:204-209 | the file is filtered out of the selection and the message cleared |
| DragZone.DragAndDropFileUpload.HandleUploadClick | frontend/src/components/drag-zone.tsx:212-219 | an empty selection gives the prompt and uploads nothing; otherwise uploading starts with a cleared message |
| DragZone.DragAndDropFileUpload.FinishUpload | frontend/src/components/drag-zone.tsx:221-241 | a handler's failure gives `Upload failed: ` plus its message; the simulated upload clears the selection with the success message; uploading ends either way |
| FilesPage.Names | frontend/src/pages/files.tsx:74 | the names of the selection, position by position |
| FilesPage.FindIndex | frontend/src/pages/files.tsx:77 | -1 exactly when no entry has the name, otherwise the first position with it |
| FilesPage.Toggle | frontend/src/pages/files.tsx:73-84 | an unselected name is appended; otherwise the first entry with that name is cut out and the rest kept in order |
| FilesPage.ToggleTwiceRestores | frontend/src/pages/files.tsx:73-84 | selecting then deselecting a file restores the selection |
| FilesPage.ToggleKeepsNamesDistinct | frontend/src/pages/files.tsx:73-84 | toggling keeps names distinct, and deselecting removes the name entirely |
| FilesPage.DownloadEnabled | frontend/src/pages/files.tsx:44-54 | the button shows exactly for a single selected entry that is not a directory |
| FilesPage.DownloadFollowsToggle | frontend/src/pages/files.tsx:44-84 | one selected file enables download; a second one, or deselecting it, disables it |
| FilesPage.DirectoryTarget | frontend/src/pages/files.tsx:62 | the target ends in `/name`; from the listing it extends the current path, from a breadcrumb it is `/name` alone |
| FilesPage.OpenChildDirectory | frontend/src/pages/files.tsx:61-62 | opening a listed directory adds its name as one segment to the path |
| FilesPage.OpenBreadcrumbDirectory | frontend/src/pages/files.tsx:62 | opening from a breadcrumb gives a path with that single segment |
| FilesPage.DetailsUrl | frontend/src/pages/files.tsx:69 | the details route, then the path, then the name, with nothing in between |
| FilesPage.DetailsUrlAmbiguous | frontend/src/pages/files.tsx:69 | path and name are joined with no separator, so moving characters between them gives the same URL |
| FilesPage.CwdOrDefault | frontend/src/pages/files.tsx:131 | the listed directory when non-empty, else `/qs/files` |
| FilesPage.BreadcrumbItems | frontend/src/pages/files.tsx:127-142 | no items for `/qs/files` itself, otherwise the segments of the listed directory, each non-empty and slash-free |
| FilesPage.BreadcrumbTarget | frontend/src/pages/files.tsx:134-138 | no target exactly when the item equals the last segment, otherwise `/item` |
| FilesPage.BreadcrumbClick | frontend/src/pages/files.tsx:134-138 | the click does nothing exactly when the item equals the last segment; otherwise it opens a one-segment path |
| FilesPage.NewFolderPath | frontend/src/pages/files.tsx:201-203 | the listed directory (or `undefined` when there is none), then `/name` |
| FilesPage.NewFolderIsChild | frontend/src/pages/files.tsx:201-203 | the new folder's path is the listed directory plus one segment, the folder name |
| FilesPage.RefetchAfterCreate | frontend/src/pages/files.tsx:204-207 | the list is refetched when the reply is `OK` or the mutation succeeded |
| FilesPage.Page.constructor | frontend/src/pages/files.tsx:31-34 | empty selection, download hidden |
| FilesPage.Page.SyncDownloadButton | frontend/src/pages/files.tsx:44-54 | the button matches the download rule for the current selection |
| FilesPage.Page.HandleSelectedFile | frontend/src/pages/files.tsx:73-84 | the selection becomes its toggle, names stay distinct and the button follows |
| FilesPage.Page.HandleDoubleClick | frontend/src/pages/files.tsx:56-71 | a directory sets the store path to the child, or to `/name` from a breadcrumb; a file navigates to its details URL |
| FilesPage.Page.OnBreadcrumbClick | frontend/src/pages/files.tsx:134-138 | the last item leaves the path alone; any other item sets it to `/item` |
| MultiUsers.IsValidUserName | src/handlers/multiusers/handlers.go:600-606 | passes iff the name has at least the configured minimum length |
| MultiUsers.IsValidPwd | src/handlers/multiusers/handlers.go:608-614 | passes iff the password has at least the configured minimum length |
| MultiUsers.IsValidRole | src/handlers/multiusers/handlers.go:616-621 | the three predefined roles are refused; any other role is checked like a user name |
| MultiUsers.PredefinedRolesAlwaysRefused | src/handlers/multiusers/handlers.go:616-621 | admin, user and visitor never pass, even when long enough |
| MultiUsers.RoleAcceptance | src/handlers/multiusers/handlers.go:616-621 | a role passes iff it is not predefined and is long enough |
| MultiUsers.ValidationIsMonotone | src/handlers/multiusers/handlers.go:600-614 | lengthening a valid name or password keeps it valid |
| MultiUsers.Claim | src/handlers/multiusers/handlers.go:593 | Go's map read: the claim's value when present, the empty string otherwise |
| MultiUsers.GetUserInfo | src/handlers/multiusers/handlers.go:577-598 | no cookie or an undecodable token fails; success exactly when the id and name claims are non-empty, returning the decoded claims |
| MultiUsers.ParseUint | src/handlers/multiusers/handlers.go:450-451 | `strconv.ParseUint` in base 10: a value exactly for non-empty digit strings worth less than 2^64, and then their decimal value; an empty string, a non-digit or a value of 2^64 or more gives an error |
| MultiUsers.FormatUint | src/handlers/multiusers/handlers.go:219 | `fmt.Sprint` of an id: non-empty digits with that value and no leading zero |
| MultiUsers.ParseFormat | src/handlers/multiusers/handlers.go:219 | a formatted id parses back to itself |
| MultiUsers.LeadingZeroValue | src/handlers/multiusers/handlers.go:451 | a leading zero does not change a decimal value |
| MultiUsers.LeadingZeroIgnored | src/handlers/multiusers/handlers.go:451 | `ParseUint` gives the same id with or without a leading zero |
| MultiUsers.Login | src/handlers/multiusers/handlers.go:185-254 | 400 on a bad body; 403/500 on lookup failure; 403 on a wrong password; 200 exactly when the user exists, the password matches and the token encodes, with claims expiring `now + ttl` and a cookie of the same age |
| MultiUsers.LoginIssuesTokenOnlyAfterPasswordCheck | src/handlers/multiusers/handlers.go:185-254 | a token is issued only after a password match, for that user's id, expiring `now + ttl`; every cookie lives `ttl` |
| MultiUsers.SetPwd | src/handlers/multiusers/handlers.go:286-333 | 400 on a bad body or an unchanged password; 403 without a valid session; 200 exactly when every step succeeds |
| MultiUsers.SetPwdStoresOnlyForCaller | src/handlers/multiusers/handlers.go:286-333 | a password is stored only for the session's own id, after the old password matched |
| MultiUsers.ForceSetPwd | src/handlers/multiusers/handlers.go:340-375 | 400 on a bad body; 500 on a bad id; 403 for an admin target with no write; 200 exactly when the target exists, is not an admin and the write succeeds |
| MultiUsers.ForceSetPwdNeverTouchesAdmin | src/handlers/multiusers/handlers.go:340-375 | no admin password is ever written, and the write targets the looked-up user |
| MultiUsers.AddUser | src/handlers/multiusers/handlers.go:387-443 | 400 on a bad body, short name or short password; 200 exactly when all checks pass and every step succeeds |
| MultiUsers.AddUserChecksNameAndPasswordOnly | src/handlers/multiusers/handlers.go:387-443 | a user record is added only with a valid name and password, with the requested name and role |
| MultiUsers.AddRole | src/handlers/multiusers/handlers.go:514-534 | 400 unless the role passes validation; 200 exactly when it passes and the store applies it |
| MultiUsers.DelRole | src/handlers/multiusers/handlers.go:540-560 | as for adding a role, deleting instead |
| MultiUsers.PredefinedRolesStay | src/handlers/multiusers/handlers.go:514-560 | no predefined role is ever added or deleted |
| MultiUsers.DelUser | src/handlers/multiusers/handlers.go:449-484 | 400 for an unparsable id or ids 0 and 1; 403 without a session; 403 with nothing deleted when the raw id string equals the session's claim; 200 exactly when it differs and both deletions succeed |
| MultiUsers.DelUserRecordBeforeFolder | src/handlers/multiusers/handlers.go:470-482 | the home folder is removed only after the user record was deleted |
| MultiUsers.DelUserSparesPredefined | src/handlers/multiusers/handlers.go:450-458 | users 0 and 1 are refused before the session is read |
| MultiUsers.SelfDeletionWithLeadingZero | src/handlers/multiusers/handlers.go:450-468 | a session for user 5 asking to delete `05` deletes user 5 |
| MultiUsers.DelUserByParsedId | src/handlers/multiusers/handlers.go:449-484 | the self check compares parsed ids: no record is deleted for the session's own id or for 0 and 1 |
| MultiUsers.LoggedInUserCannotDeleteSelf | src/handlers/multiusers/handlers.go:465-468 | with the parsed comparison, a session from `Login` never deletes its own user |
| MultiUsers.CorrectionAgreesOnCanonicalIds | src/handlers/multiusers/handlers.go:449-484 | on ids written without leading zeros the corrected and the original handler agree |
| AccessRules.AdminGrants | src/handlers/multiusers/handlers.go:40-86 | the admin entries; admin may add and delete users and roles and force-set passwords |
| AccessRules.UserGrants | src/handlers/multiusers/handlers.go:89-120 | the user entries, as listed; what they exclude is stated by `ForceSetPwdNotUserGrant`, `LoginNotUserGrant` and `UserGrantsAreAdminGrants` |
| AccessRules.VisitorGrants | src/handlers/multiusers/handlers.go:123-134 | the visitor entries: reading only, plus logging in and the health probe |
| AccessRules.GrantsOf | src/handlers/multiusers/handlers.go:37-134 | a role other than the three predefined ones has no exact-path grant; each predefined role may load `/` and the public path |
| AccessRules.ApiACRules | src/handlers/multiusers/handlers.go:37-134 | a (role, method, path) rule is present exactly when the role's table lists the grant |
| AccessRules.UserGrantsAreAdminGrants | src/handlers/multiusers/handlers.go:37-134 | every user grant is an admin grant |
| AccessRules.VisitorGrantsAreUserGrantsOrLogin | src/handlers/multiusers/handlers.go:37-134 | every visitor grant is a user grant, except login |
| AccessRules.LoginNotUserGrant | src/handlers/multiusers/handlers.go:37-134 | login is granted to admin and visitor but not to user |
| AccessRules.RuleHierarchy | src/handlers/multiusers/handlers.go:37-134 | a user rule implies an admin rule; a visitor rule implies a user rule or is login |
| AccessRules.ForceSetPwdIsAdminOnly | src/handlers/multiusers/handlers.go:37-134 | only admin may force-set a password |
| AccessRules.ForceSetPwdNotUserGrant | src/handlers/multiusers/handlers.go:89-120 | the user table does not let a user force-set a password |
| AccessRules.ForceSetPwdNotVisitorGrant | src/handlers/multiusers/handlers.go:123-134 | the visitor table does not let a visitor force-set a password |
| AccessRules.PrefixPermissions | src/handlers/multiusers/handlers.go:137-161 | `/v2/` grants admin every method; `/v2/my/` grants only the user role GET, POST, PATCH and DELETE; `/v2/public/` grants admin nothing |
| AccessRules.PrefixRules | src/handlers/multiusers/handlers.go:137-161 | the table has exactly the prefixes `/v2/`, `/v2/my/` and `/v2/public/` |
| AccessRules.RouteTree.constructor | src/handlers/multiusers/handlers.go:163 | a new tree holds nothing |
| AccessRules.RouteTree.Insert | src/handlers/multiusers/handlers.go:165 | the prefix now maps to its permissions, every other prefix unchanged |
| AccessRules.BuildRouteTree | src/handlers/multiusers/handlers.go:163-166 | the tree ends up holding exactly the prefix table |

## Left out

- Rendering, styling, toasts, `getInitials`, size formatting and the download link's `href` are not modelled; they decide nothing about state.
- React Query is not modelled. The effect of a refetch on the listing is not part of this model; only `setPath` is.
- The status message that `handleFiles` writes per refused file is not modelled. It reads a stale `message` from the closure, so the final text depends on React's batching.
- DragZone.DragAndDropFileUpload.HandleFiles: states the selection, the callback and every untouched field, but not `message`.
- DragZone.DragAndDropFileUpload.HandleUploadClick: the upload is split at its `await`: `HandleUploadClick` models the part before it and `FinishUpload` the part after. The handler's outcome (`failure`) is an input.
- The simulated two-second delay, `console` output and the click forwarding to the hidden input are not modelled.
- The identity comparison `file !== fileToRemove` in the remove handler is modelled by a unique `id` per `File` object.
- FileAdmission.Scan: `maxFiles` is a JavaScript number but is modelled as an integer; a fractional limit such as 2.5 (which admits three files) cannot be expressed. The same holds for `DragZone.AdmitFiles` and the component's `maxFiles`.
- Lower-casing is modelled for ASCII letters only; Unicode case mapping is not modelled.
- Go's `len` on strings is modelled as a count of characters, not of UTF-8 bytes.
- The role constants (`admin`, `user`, `visitor`) and the claim keys (`uid`, `user`, `role`, `expire`) come from packages that are not part of this model; they are modelled as distinct constants with those names.
- `Self`, `SetPreferences`, `SetUser`, `Logout`, `IsAuthed`, `ListUsers` and `ListRoles` are not modelled: they are neither input guards nor access tables. `Self` answers 403 without a session and, like `SetPreferences`, replaces the background preference by the default when setting it is not allowed; `SetUser` and `ListUsers` call the store; `Logout` clears the cookie; `IsAuthed` and `ListRoles` answer constants.
- bcrypt, JWT encoding and decoding, the user store, the file system and the clock are inputs to the handler functions, not models.
- MultiUsers.AddUser: the two `MkdirAll` calls (the user's root folder, then its upload folder) are merged into one `foldersCreated` outcome and one `CreateFolders(name)` effect, so a failure after the first folder was made is not told apart; the id drawn by `ID().Gen()` is not in the effect log. The statuses are as in the source.
- MultiUsers.Login: the expiry `now + ttl` is unbounded; int64 overflow of the Unix time is not modelled.
- The lookup of a request path in the q-radix tree is not modelled; only the tree's contents are.
- The `filepath.Join` that normalises the public path is not modelled; the public path is a parameter.
- The order of effects within a handler is the order of calls in its body; concurrency between requests is not modelled.

## Findings

| source | as written | input that shows it | evidently intended | confidence | as-written member | corrected member |
|---|---|---|---|---|---|---|
| src/handlers/multiusers/handlers.go:465-468 | the self-deletion check compares the raw `uid` query string with the session's `uid` claim, while the deletion uses the parsed id | a session for user 5 (claim `"5"`) sends `uid=05`: the strings differ, `ParseUint("05")` is 5, so user 5 deletes itself (and the folder `05` is removed instead of `5`) | compare the parsed id with the session's id, so that no user can delete itself | medium, not executed | MultiUsers.SelfDeletionWithLeadingZero | MultiUsers.DelUserByParsedId |
