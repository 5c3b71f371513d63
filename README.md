# ApiPlayer backend: the versioning engine and its companions, in Dafny

ApiPlayer is an API-testing workbench with a Koa/Express backend on MySQL. This project
covers the part of the backend where the logic lives, which is change versioning and
rollback of an api's definition.

- **The ledger.** Every edit, creation or deletion of an api writes one row to
  `api_versions`. The row's `version_type` is a comma-joined list of one-character codes.
- **Four versioned aspects of an api:**
  - the `apis` row itself, whose previous state is copied into `api_backup`;
  - its responses (`api_responses`);
  - its request parameters (`request_params`);
  - its JSON body (`request_JSON`).
- **Soft-delete history.** The three list tables keep superseded rows with
  `delete_status` 1 and the id of the version that superseded them.
- **Writers and the undo.** `updateApi`, `addApi` and `deleteApi` write the ledger and the
  aspects. `rollback` undoes one ledger entry.

The project also models these smaller pure pieces:

- the request assembly of `runApi`;
- the folder tree of `getApiList`;
- the parameter classification of the Swagger import `uploadYaml`;
- the global parameters, variables and environments of `getGlobalInfo` and `updateGlobalInfo`;
- the code enumerations;
- `getMissingParam` and `getPresentTime`;
- the `atLeastOneOf` and captcha validation rules.

## Structure

- **Tables and statements.** Each table is a sequence of records. Each SQL statement is a
  function on that sequence:
  - an `UPDATE` maps the rows its `WHERE` matches;
  - a `DELETE` filters;
  - an `INSERT` appends.
- **Auto-increment ids and `createdAt`.** Both come from one counter that only grows, so
  `ORDER BY createdAt DESC` is reverse table order. `Ledger.NewestFirstIsDescending`
  proves this.
- **Spec functions.** Module `Versioning` describes each handler as a function on a
  whole-database value `Db`: `UpdateSpec`, `AddSpec`, `DeleteSpec` and `RollbackSpec`.
- **The store class.** Class `Store.ApiStore` holds the tables as fields. It runs each
  handler statement by statement, loops included, and every method is proved to end in
  the state and reply its function gives.
- **Proofs.** `VersioningProofs` proves the invariants the handlers keep, the round trip
  "update, then roll back the version it opened", and the asymmetries of the undo.
- **Other handlers.**
  - `GlobalInfo.GlobalStore` does the same for `updateGlobalInfo`.
  - `RunApi` and `YamlImport` keep the source's loops as methods proved against functions.
- **The folder tree.** `buildDicTree` recurses once per level. On a cycle of `father_id`
  links it overflows the stack, and `getApiList`'s `catch` answers 500. `ApiList.BuildDicTree`
  spends one unit of fuel per level and answers `None` when the fuel runs out.
  `getApiList` is given one unit more than the project has folders. `ApiList.UniqueIdsBuild`
  proves that this never runs out when folder ids are keys. A cycle below the root needs
  an id held by two rows.
- **The walk of the apis.** `getApis` descends into every node whose `type` is
  `'dictionary'`. That is every folder, and also every api whose method is the text
  `'dictionary'`, since an api node's type is its method. `ApiList.Walk` does the same.
  - A chain of such apis, each filed under the one before, that loops back makes the
    source's walk go on for ever, and no reply is sent (`ApiList.SelfFiledApi`).
  - `ApiList.Walk` spends one unit of fuel per level of pushed apis and answers `None`
    when it runs out. `getApiList` gives it one unit more than there are apis.
  - `ApiList.WalkFuelIndependent` proves that this bound loses no reply: any fuel that
    gives a tree gives the same tree. A walk that runs out with that fuel has a chain of
    more apis than the table holds, so the chain repeats a row and loops.
- **Modules by table:**
  - `ApiTable`: `apis` and `api_backup`;
  - `AspectStore`: the shared soft-delete history;
  - `Ledger`: `api_versions`;
  - `VersionType`: the `version_type` text;
  - `Text`: JavaScript string helpers.

## Model

| member | source | states |
|---|---|---|
| Store.ApiStore.constructor | controller/types/index.ts:114-171 | an empty database satisfies the invariant |
| Store.ApiStore.UpdateApi | controller/apis/index.ts:78-217 | runs the handler statement by statement, ends in exactly the state and reply of `UpdateSpec`, and keeps the invariant |
| Store.ApiStore.AddApi | controller/apis/index.ts:17-47 | ends in `AddSpec`'s state and reply: a ledger row of type "4", then the new api tagged with it; keeps the invariant |
| Store.ApiStore.DeleteApi | controller/apis/index.ts:50-75 | ends in `DeleteSpec`'s state and reply: a ledger row of type "5", then the api soft-deleted and tagged; keeps the invariant |
| Store.ApiStore.Rollback | controller/projects/index.ts:746-886 | runs the undo step by step, ends in `RollbackSpec`'s state and reply, and keeps the invariant |
| Store.ApiStore.OpenStep | controller/apis/index.ts:107-113 | appends an empty ledger row under the next id and returns that id |
| Store.ApiStore.BasicStep | controller/apis/index.ts:118-133 | with basic_info: the pre-edit row is backed up under the version, then the api is overwritten and re-tagged; appends the clause and "0," |
| Store.ApiStore.ResponsesStep | controller/apis/index.ts:135-152 | with api_responses: active responses are retired under the version, then the items are inserted under it; appends the clause and "1," |
| Store.ApiStore.InsertResponses | controller/apis/index.ts:140-149 | one insert per item, in order, with consecutive ids; the message gains each name followed by "、" |
| Store.ApiStore.ParamsStep | controller/apis/index.ts:154-183 | with api_request_params: active params are retired, then the named entries are inserted; appends the clause and "2," |
| Store.ApiStore.InsertParams | controller/apis/index.ts:163-180 | every group in order, with the entries of each group in order; only entries with a non-empty name are inserted or named in the message |
| Store.ApiStore.InsertGroup | controller/apis/index.ts:164-179 | one group's entries: inserts exactly `KeptOf` under the group's class, with consecutive ids |
| Store.ApiStore.BodyStep | controller/apis/index.ts:185-197 | with a non-empty JSON: the active body is retired under the version, then the JSON without '\n' and '\t' is inserted with no version id; appends "3," |
| Store.ApiStore.AspectSteps | controller/apis/index.ts:118-197 | steps 1 to 4 in order leave `EditAspects` and return the accumulated message and type text |
| Store.ApiStore.CloseStep | controller/apis/index.ts:199-202 | writes the message and type onto the version row and changes nothing else |
| Store.ApiStore.RollbackBasicStep | controller/projects/index.ts:764-791 | restores the api from the version's first backup, when there is one, under the previous "0" version, then deletes the version's backups |
| Store.ApiStore.RevertResponsesStep | controller/projects/index.ts:793-817 | the responses step of the undo, as `RevertAspect` |
| Store.ApiStore.RevertParamsStep | controller/projects/index.ts:819-843 | the params step of the undo, as `RevertAspect` |
| Store.ApiStore.RevertBodyStep | controller/projects/index.ts:845-869 | the body step of the undo, as `RevertAspect` |
| Store.ApiStore.RevertSteps | controller/projects/index.ts:764-869 | runs the steps for the listed codes, in the order 0, 1, 2, 3 |
| Versioning.AspectCodes | controller/apis/index.ts:132-196 | code k is listed exactly when aspect k is supplied; the list never holds ',', '4' or '5' |
| Versioning.KeptOf | controller/apis/index.ts:164-179 | the inserted entries of a group have non-empty names and the group's class |
| Versioning.KeptParams | controller/apis/index.ts:163-180 | no inserted parameter has an empty name |
| Versioning.KeptParamsComplete | controller/apis/index.ts:163-180 | every entry with a non-empty name is inserted, under its group's class |
| Versioning.KeptOfComplete | controller/apis/index.ts:164-179 | within a group, every named entry is kept |
| VersioningProofs.UpdateOutcomes | controller/apis/index.ts:83-113 | the four outcomes of an update: nothing supplied gives result_code 1 and no write; an unknown api gives 500 and no write; a folder move writes only dictionary_id and opens no version; otherwise exactly one ledger row is added |
| VersioningProofs.TypeIsJoinedCodes | controller/apis/index.ts:116-201 | the closing version_type is the supplied codes joined by commas, in the order 0,1,2,3, with no trailing comma |
| VersioningProofs.TypeOfSparseEdits | controller/apis/index.ts:196-202 | a body-only edit has type "3"; an edit with no aspect has type "" and message "。" |
| VersioningProofs.TaggedAspects | controller/apis/index.ts:132-196 | the accumulated text is "k," for each supplied code |
| VersioningProofs.ClosedCodes | controller/projects/index.ts:752-762 | splitting the closing type gives back exactly the supplied aspects, and never "4" or "5" |
| VersioningProofs.EditVersions | controller/apis/index.ts:108-202 | the versioned edit appends exactly one ledger row, the closed one |
| VersioningProofs.EditApis | controller/apis/index.ts:120-129 | apis and api_backup are written only when basic_info is supplied, and then as the backup-and-overwrite pair |
| VersioningProofs.EditResponsesFact | controller/apis/index.ts:136-152 | the responses table is unchanged without responses, and is otherwise the retired rows plus the inserted items |
| VersioningProofs.EditParamsFact | controller/apis/index.ts:155-183 | the params table is unchanged without params, and is otherwise the retired rows plus the kept entries |
| VersioningProofs.AspectsFrame | controller/apis/index.ts:118-197 | the aspect steps never write the ledger, and only the basic step writes apis and api_backup |
| VersioningProofs.AspectsResponses | controller/apis/index.ts:136-152 | only the responses step writes api_responses |
| VersioningProofs.AspectsParams | controller/apis/index.ts:155-183 | only the params step writes request_params |
| VersioningProofs.EditSpecAspects | controller/apis/index.ts:118-202 | the versioned edit's aspect tables are those the aspect steps leave |
| VersioningProofs.UpdateKeepsInvariant | controller/apis/index.ts:78-217 | an update keeps the invariant: chronological ledger, ids below the counter, unique api_id, at most one active untagged body per api |
| VersioningProofs.EditKeeps | controller/apis/index.ts:107-202 | the versioned edit keeps the invariant |
| VersioningProofs.OpenKeeps | controller/apis/index.ts:108-113 | opening a version keeps the invariant |
| VersioningProofs.EditBasicKeeps | controller/apis/index.ts:120-129 | the basic step keeps the invariant |
| VersioningProofs.EditResponsesKeeps | controller/apis/index.ts:136-152 | the responses step keeps the invariant |
| VersioningProofs.EditParamsKeeps | controller/apis/index.ts:155-183 | the params step keeps the invariant |
| VersioningProofs.EditBodyKeeps | controller/apis/index.ts:186-197 | the body step keeps the invariant, including at most one active body per api |
| VersioningProofs.CloseKeeps | controller/apis/index.ts:202 | closing a version keeps the invariant |
| VersioningProofs.FolderKeeps | controller/apis/index.ts:97-98 | a folder move keeps the invariant |
| VersioningProofs.AddKeepsInvariant | controller/apis/index.ts:17-33 | addApi keeps the invariant; the new api_id is fresh |
| VersioningProofs.DeleteKeepsInvariant | controller/apis/index.ts:50-63 | deleteApi keeps the invariant |
| VersioningProofs.DeleteTouchesNoAspect | controller/apis/index.ts:55-63 | deleteApi adds one ledger row of type "5", marks the api deleted under it, and touches no aspect row and no backup |
| VersioningProofs.RollbackKeepsInvariant | controller/projects/index.ts:746-886 | rollback keeps the invariant and never changes the body table |
| VersioningProofs.RevertListedKeeps | controller/projects/index.ts:764-869 | the undo steps keep the invariant and never change the ledger or the body table |
| VersioningProofs.RollbackBasicKeeps | controller/projects/index.ts:764-791 | the basic undo step keeps the invariant |
| VersioningProofs.RevertResponsesKeeps | controller/projects/index.ts:793-817 | the responses undo step keeps the invariant |
| VersioningProofs.RevertParamsKeeps | controller/projects/index.ts:819-843 | the params undo step keeps the invariant |
| VersioningProofs.RemoveKeeps | controller/projects/index.ts:872 | deleting the ledger row keeps the invariant |
| VersioningProofs.PreviousBelow | controller/projects/index.ts:771-777 | a previous id, when there is one, is below the counter |
| VersioningProofs.RevertBodyIsIdentity | controller/projects/index.ts:846-869 | the body step of rollback changes nothing, because the new body row carries no version_id |
| VersioningProofs.UpdateThenRollback | controller/projects/index.ts:746-886 | update, then roll back the version it opened: reply 0; ledger and api_backup as before; an edited api back to its row, with version_id the newest earlier "0" version; each edited list aspect that received rows back to its rows, the restored ones re-tagged with the newest earlier version; an edited aspect that received no row stays retired; the body edit stays |
| VersioningProofs.RollbackOfEdit | controller/projects/index.ts:752-872 | the rollback of an edit finds its closed row, refuses nothing and deletes exactly that row |
| VersioningProofs.RollbackOfRow | controller/projects/index.ts:752-886 | for a row that is neither add nor delete, rollback reverts the listed aspects, deletes the row and replies 0 |
| VersioningProofs.UndoAspects | controller/projects/index.ts:793-843 | the list-aspect steps of the undo of an edit give back the pre-edit responses and params as above |
| VersioningProofs.UndoResponses | controller/projects/index.ts:793-817 | the responses step of the undo of an edit |
| VersioningProofs.UndoParams | controller/projects/index.ts:819-843 | the params step of the undo of an edit |
| VersioningProofs.UndoApis | controller/projects/index.ts:764-791 | the basic step of the undo of an edit gives back api_backup, and the apis table with the api re-tagged |
| VersioningProofs.UndoBasic | controller/projects/index.ts:764-791 | the basic step undoes a backup-and-overwrite: the api row is back, with version_id the previous id, and the backup is gone |
| VersioningProofs.BasicTablesRoundTrip | controller/projects/index.ts:765-791 | the backup and overwrite of an edit, restored from its backup, give back both tables |
| VersioningProofs.RollbackBasicOf | controller/projects/index.ts:764-791 | the basic step, once its backup and previous id are known |
| VersioningProofs.EditIsEditedFrom | controller/apis/index.ts:107-202 | the edit's tables, table by table |
| VersioningProofs.EditedBasicFacts | controller/apis/index.ts:120-201 | the facts about an edit's apis and api_backup writes that its undo depends on |
| VersioningProofs.BackupsBelowNext | controller/apis/index.ts:124-127 | no backup row yet carries the next version id |
| VersioningProofs.ClosedMatches | controller/projects/index.ts:771-774 | the closed row of an edit matches the previous-version query of each aspect it touched |
| VersioningProofs.ClosedPrevious | controller/projects/index.ts:771-777 | with the edit's row in the ledger, the previous-version query returns the newest version from before the edit |
| VersioningProofs.ClosedRowFacts | controller/apis/index.ts:151-201 | the closed row belongs to the project, and its split type lists responses and params exactly when they were edited |
| VersioningProofs.ListedBasic | controller/projects/index.ts:764-869 | only the basic undo step writes apis and api_backup |
| VersioningProofs.ListedResponses | controller/projects/index.ts:793-817 | only the responses undo step writes api_responses |
| VersioningProofs.ListedParams | controller/projects/index.ts:819-843 | only the params undo step writes request_params |
| VersioningProofs.ListedVersions | controller/projects/index.ts:764-869 | no undo step before the final DELETE writes the ledger |
| VersioningProofs.RollbackTwiceFails | controller/projects/index.ts:752-872 | after a successful rollback, rolling the same version back again gives 500 and changes nothing |
| VersioningProofs.AddNotReversible | controller/projects/index.ts:756-762 | the version addApi opens is refused by rollback, with result_code 1 and no change |
| VersioningProofs.DeleteNotReversible | controller/projects/index.ts:756-762 | the version deleteApi opens is refused by rollback, so a deleted api stays deleted |
| VersioningProofs.SplitSingle | controller/projects/index.ts:754 | a one-code type splits into that one code |
| VersioningProofs.TaggedStep | controller/apis/index.ts:132-196 | adding an aspect's "k," extends the tagged codes by k |
| VersioningProofs.TagsBelowGrow | controller/apis/index.ts:142-177 | rows inserted under an issued version keep all tags below the counter |
| Versioning.OpenVersion | controller/apis/index.ts:108-113 | one ledger row is appended under the counter's id and the earlier rows stay as they were; the counter moves past it |
| Versioning.EditSpec | controller/apis/index.ts:107-202 | the versioned edit adds exactly one ledger row and spends at least one id |
| Versioning.UpdateSpec | controller/apis/index.ts:78-217 | the reply is 500 exactly when something is supplied but the api is missing; a reply with result_code 1 leaves the database as it was |
| Versioning.AddSpec | controller/apis/index.ts:17-47 | the reply carries the new api's id, which lies above the version's id and below the new counter, and the api row appended has that id |
| Versioning.DeleteSpec | controller/apis/index.ts:50-75 | the reply is 500 exactly when the api is missing, and then nothing changes |
| Versioning.RollbackBasic | controller/projects/index.ts:764-791 | the basic undo step writes only apis and api_backup: ledger, counter and aspect tables are unchanged |
| Versioning.RevertListed | controller/projects/index.ts:764-869 | the undo steps never touch the ledger or the counter |
| Versioning.RollbackSpec | controller/projects/index.ts:746-886 | the reply is 500 exactly when the version is missing; a refused rollback (result_code 1) leaves the database as it was |
| ApiTable.FindApi | controller/apis/index.ts:93-95 | finds nothing exactly when no row has the id; otherwise a row of the table with that id |
| ApiTable.SetDictionary | controller/apis/index.ts:98 | the rows with the id get the folder; every other row is unchanged |
| ApiTable.ApplyBasicInfo | controller/apis/index.ts:129 | the rows with the id get the new columns and the version; every other row is unchanged |
| ApiTable.MarkDeleted | controller/apis/index.ts:63 | the rows with the id are marked deleted and tagged; every other row is unchanged |
| ApiTable.Restored | controller/projects/index.ts:778-787 | a restored row keeps its own api_id, project_id and delete_status, takes version_id from the previous id, and takes every other column from the backup |
| ApiTable.RestoreBasic | controller/projects/index.ts:787 | the backup's api is restored; every other row is unchanged |
| ApiTable.RetagApi | controller/projects/index.ts:787 | only the api's version_id changes |
| ApiTable.FoundIsOnly | controller/apis/index.ts:121-122 | with unique ids, the row found is the only row with its id |
| ApiTable.BasicRoundTrip | controller/projects/index.ts:778-787 | an overwrite followed by a restore from the backup gives back the table, except the api's version_id |
| ApiTable.OnlyRowRoundTrip | controller/projects/index.ts:778-787 | the same round trip, for the only row with its id |
| ApiTable.BackupsOf | controller/projects/index.ts:767 | exactly the backups of the version |
| ApiTable.DeleteBackups | controller/projects/index.ts:789 | exactly the backups of other versions remain |
| ApiTable.BackupsOfUntagged | controller/projects/index.ts:767-789 | a version with no backup finds none and deletes none |
| ApiTable.BackupRoundTrip | controller/projects/index.ts:767-789 | the backup written by an edit is the only one its version finds, and deleting it gives back the table |
| AspectStore.SoftDeleteActive | controller/apis/index.ts:139-189 | every active row of the api is retired and tagged with the version; inactive rows and other apis' rows are untouched |
| AspectStore.NewRows | controller/apis/index.ts:142-195 | one active row per payload, in order, with consecutive ids and the given tag |
| AspectStore.SelectActiveUnder | controller/projects/index.ts:795-851 | exactly the active rows tagged with the version; empty exactly when there are none |
| AspectStore.DeleteActiveUnder | controller/projects/index.ts:801-853 | exactly the rows that are not active under the version remain |
| AspectStore.SelectDeleteSplit | controller/projects/index.ts:795-853 | the select and the delete split the table: every row goes to exactly one of them, as often as it occurs |
| AspectStore.Reactivate | controller/projects/index.ts:812-867 | the rows the version retired become active under the previous id; every other row is unchanged |
| AspectStore.RevertAspect | controller/projects/index.ts:795-816 | the table is left as it is when no active row carries the version; otherwise the delete, then the reactivation |
| AspectStore.RetagActive | controller/projects/index.ts:812-815 | the api's active rows take the tag; no other column and no other row changes |
| AspectStore.AspectRoundTrip | controller/projects/index.ts:794-817 | retire and insert under a fresh version, then revert: gives back the old rows with the api's active ones re-tagged when items were inserted; leaves the table retired when none were |
| AspectStore.UntaggedNeverReverted | controller/projects/index.ts:846-869 | a table whose active rows carry no version is never reverted |
| AspectStore.ReplaceUntaggedKeepsShape | controller/apis/index.ts:189-195 | replacing a body keeps active rows untagged and at most one per api |
| AspectStore.DeleteActiveUnderAppend | controller/projects/index.ts:801 | the delete distributes over the table's parts |
| AspectStore.DeleteActiveUnderNone | controller/projects/index.ts:801 | the delete removes nothing when no row is active under the version |
| AspectStore.DeleteActiveUnderAll | controller/projects/index.ts:801 | the delete removes all rows when all are active under the version |
| AspectStore.TagsBelowRetire | controller/apis/index.ts:139 | retiring under an issued version keeps tags below the counter |
| AspectStore.TagsBelowRevert | controller/projects/index.ts:812-815 | reverting to an issued previous id keeps tags below the counter |
| AspectStore.NewRowsSnoc | controller/apis/index.ts:142-148 | one more payload is one more row at the end, with the next id |
| Ledger.FindVersion | controller/projects/index.ts:752-754 | finds nothing exactly when no row has the id; otherwise the row with it |
| Ledger.CloseVersion | controller/apis/index.ts:202 | the rows of the version get the message and type; every other row is unchanged |
| Ledger.RemoveVersion | controller/projects/index.ts:872 | exactly the rows of other versions remain: none of the version, every one of the others |
| Ledger.Matching | controller/projects/index.ts:770-777 | the rows returned are exactly the ledger rows of the project whose type contains the code: every one returned is such a row, and every such row is returned; the same query for codes 1 to 3 sits at lines 805, 831 and 857 |
| Ledger.Reverse | controller/projects/index.ts:772 | the rows in reverse order |
| Ledger.PreviousId | controller/projects/index.ts:770-777 | null exactly when fewer than two rows match; otherwise the id of the second-newest matching row |
| Ledger.NewestFirstIsDescending | controller/projects/index.ts:772 | for a ledger in creation order, reverse table order is createdAt descending |
| Ledger.MatchingChronological | controller/projects/index.ts:771-774 | the matching rows stay in creation order |
| Ledger.PreviousOfNewest | controller/projects/index.ts:770-777 | when the version rolled back is the newest match, the previous id is the newest match before it |
| Ledger.PreviousIgnoresTarget | controller/projects/index.ts:770-777 | rolling back a version that is not the newest: the previous id is the second-newest match, which here is the version being rolled back |
| Ledger.FindFresh | controller/apis/index.ts:108-113 | a row appended with a fresh id is what the lookup finds |
| Ledger.CloseFresh | controller/apis/index.ts:202 | closing a fresh version rewrites only its own row |
| Ledger.RemoveAbsent | controller/projects/index.ts:872 | deleting an absent id changes nothing |
| Ledger.RemoveKeepsOthers | controller/projects/index.ts:872 | the delete keeps every row of another version |
| Ledger.RemoveFresh | controller/projects/index.ts:872 | deleting a freshly appended version gives back the ledger |
| Ledger.RemoveChronological | controller/projects/index.ts:872 | the delete keeps creation order |
| Ledger.PreviousIsListed | controller/projects/index.ts:776 | a previous id is the id of a ledger row |
| Ledger.MatchingAll | controller/projects/index.ts:770-777 | when every row is a matching row the query returns the whole ledger |
| VersionType.Split | controller/projects/index.ts:754 | at least one piece, none containing a comma |
| VersionType.SplitJoin | controller/projects/index.ts:754 | joining the pieces with commas gives back the text |
| VersionType.SplitJoinCodes | controller/projects/index.ts:754 | splitting joined codes gives the codes one by one |
| VersionType.CodesListed | controller/projects/index.ts:756-846 | `includes(k)` on the split text holds exactly when code k was joined, for each code '0' to '5' |
| VersionType.IncludesIsMembership | controller/projects/index.ts:756-765 | `includes(k)` on the split holds exactly when k is one of the codes, the empty list included |
| VersionType.LikeIsMembership | controller/projects/index.ts:770-777 | `LIKE "%k%"` holds on joined codes exactly when k is one of them |
| VersionType.TaggedContents | controller/apis/index.ts:132-196 | a code is in the accumulated text exactly when it was tagged |
| VersionType.SplitTagged | controller/apis/index.ts:201 | the accumulated text splits into the codes plus an empty last piece |
| VersionType.Singletons | controller/projects/index.ts:754 | the codes one by one |
| VersionType.Tagged | controller/apis/index.ts:132-196 | two characters per code |
| VersionType.TaggedSnoc | controller/apis/index.ts:132 | appending "k," tags one more code |
| Constants.TeamPermissionOf | utils/constants.ts:5-10 | decodes exactly 0 to 3, and the decoded value has that number |
| Constants.ProjectPermissionOf | utils/constants.ts:13-18 | decodes exactly 0 to 3, and the decoded value has that number |
| Constants.ProjectEnvOf | utils/constants.ts:21-26 | decodes exactly 0 to 3, and the decoded value has that number |
| Constants.VersionUpdateType.Code | utils/constants.ts:29-36 | every code is a character from '0' to '5' |
| Constants.VersionUpdateTypeOf | utils/constants.ts:29-36 | decodes exactly '0' to '5', and each code belongs to exactly one kind, so the codes are distinct |
| Constants.RefusedCodes | utils/constants.ts:33-35 | the kinds rollback refuses are exactly those coded '4' and '5' |
| RunApi.Named | controller/apis/index.ts:341-348 | the pairs have non-empty keys and are at most as many as the entries |
| RunApi.NamedMembers | controller/apis/index.ts:341-348 | a pair is pushed exactly when an entry has that non-empty name |
| RunApi.BucketMembers | controller/apis/index.ts:339-390 | a pair is in the bucket of class k exactly when it comes from a group of class k |
| RunApi.OtherClassesDropped | controller/apis/index.ts:339-390 | a class with no group has an empty bucket |
| RunApi.ToObjectLastWins | controller/apis/index.ts:436-439 | a key maps to the value of its last pair |
| RunApi.ToObjectKeys | controller/apis/index.ts:436-439 | the object's keys are exactly the pairs' keys |
| RunApi.ToObjectAppend | controller/apis/index.ts:409-444 | appended pairs override earlier ones, so a global shadows a request parameter of the same name |
| RunApi.PushNamed | controller/apis/index.ts:341-348 | pushes exactly the named entries, in order |
| RunApi.BucketParams | controller/apis/index.ts:339-390 | each bucket holds the named entries of the groups of its class, in order |
| RunApi.MergeGlobals | controller/apis/index.ts:409-429 | father_type 0 goes to Header, 1 to Cookies, 2 to Params, appended in order; the body buckets are untouched |
| RunApi.BuildConfig | controller/apis/index.ts:432-472 | query and headers are the folded buckets; only POST carries a body, and there JSON beats url-encoded, which beats form-data, each setting Content-Type |
| RunApi.AssembleRequest | controller/apis/index.ts:334-472 | the whole assembly, stated in terms of the request's groups and the project's globals |
| RunApi.Bucket | controller/apis/index.ts:339-390 | every pair in a bucket has a non-empty key |
| RunApi.GlobalsOf | controller/apis/index.ts:409-429 | at most one pair per global |
| RunApi.ToObject | controller/apis/index.ts:436-439 | the last pair's key is in the object and maps to that pair's value |
| RunApi.BodyJson | controller/apis/index.ts:393-396 | the body text is empty exactly when no JSON is stored or it is empty; otherwise it is the stored JSON |
| ApiList.ProjectFolders | controller/projects/index.ts:183 | exactly the project's folders |
| ApiList.FindRoot | controller/projects/index.ts:186 | finds nothing exactly when every folder has a father; otherwise the first folder without one |
| ApiList.ChildrenOf | controller/projects/index.ts:197-206 | every listed child has the father, and there are at most as many as folders |
| ApiList.ChildrenOfCounts | controller/projects/index.ts:197-206 | every child folder is listed as often as the table holds it, and no other folder is |
| ApiList.BuildEach | controller/projects/index.ts:197-206 | a built forest has one node per child |
| ApiList.BuildEachNodes | controller/projects/index.ts:197-206 | a forest is built exactly when every subtree is, and then its nodes are the folder nodes of the children |
| ApiList.BuildEachDefined | controller/projects/index.ts:195-208 | a forest is built exactly when each child's subtree is |
| ApiList.BuildSomeEach | controller/projects/index.ts:197-206 | a built forest has every child's subtree built |
| ApiList.BuildAllSome | controller/projects/index.ts:197-206 | a forest whose every child's subtree is built is built |
| ApiList.BuildEachValues | controller/projects/index.ts:199-204 | the i-th node is the folder node of the i-th child, holding its own subtree |
| ApiList.ChildrenAreChildFolders | controller/projects/index.ts:195-208 | the children of a built folder are exactly its child folders in table order, each a 'dictionary' node with its id and name |
| ApiList.MoreFuelSameTree | controller/projects/index.ts:195-208 | more recursion depth never changes a tree that was built |
| ApiList.MoreFuelSameForest | controller/projects/index.ts:195-208 | more recursion depth never changes a forest that was built |
| ApiList.ApiNodes | controller/projects/index.ts:217-225 | api nodes have no children; every api of the folder is listed, and every node listed is the node of an api of that folder |
| ApiList.BuildDicTree | controller/projects/index.ts:195-208 | a built level has one node per child folder |
| ApiList.UnbuiltChain | controller/projects/index.ts:195-208 | a folder not built within n levels heads a chain of n child folders, each a row of the table |
| ApiList.ChainIdsDistinct | controller/projects/index.ts:186-208 | with ids as keys, no id repeats along a chain going down from a root folder |
| ApiList.UniqueIdsBuild | controller/projects/index.ts:195-208 | with ids as keys, the tree under a root folder is always built within one level more than the number of folders |
| ApiList.CycleNeverBuilds | controller/projects/index.ts:195-208 | a folder on a cycle of father_id links is never built, whatever the fuel, as the source's recursion never ends there |
| ApiList.BlockedChildBlocks | controller/projects/index.ts:197-206 | a folder with a child that is not built is not built either |
| ApiList.Walk | controller/projects/index.ts:213-229 | a walk that ends keeps the number of nodes |
| ApiList.WalkOne | controller/projects/index.ts:216-227 | the node keeps its id, label and type; a node whose type is not 'dictionary' is unchanged; a 'dictionary' node with no fuel left is not walked |
| ApiList.WalkEach | controller/projects/index.ts:214 | the walk of a list ends exactly when each node's walk ends, and then the i-th node is the i-th node walked |
| ApiList.WalkDefined | controller/projects/index.ts:214 | the walk of a list ends exactly when each node's walk ends |
| ApiList.WalkAllSome | controller/projects/index.ts:214 | when every node's walk ends, so does the list's |
| ApiList.WalkValues | controller/projects/index.ts:214 | the i-th node of a walked list is the i-th node walked |
| ApiList.WalkHeads | controller/projects/index.ts:213-229 | the walk keeps every node's id, label and type |
| ApiList.WalkBlocked | controller/projects/index.ts:214-228 | a node whose walk does not end stops the walk of any list holding it |
| ApiList.WalkBlockedAt | controller/projects/index.ts:214-228 | a walk that does not end holds a node whose walk does not end |
| ApiList.WalkLeavesUnwalked | controller/projects/index.ts:216 | a node whose type is not 'dictionary' is left as it is |
| ApiList.WalkOneApis | controller/projects/index.ts:216-227 | a walked node keeps its own children, in place and with their heads, and then has one child per api of its folder, in table order, with that api's id, name and method |
| ApiList.WalkOneLeavesApis | controller/projects/index.ts:218-226 | a pushed api whose method is not 'dictionary' stays as pushed, with no children |
| ApiList.Folders | controller/projects/index.ts:216 | the skeleton holds folders only |
| ApiList.WalkKeepsFolders | controller/projects/index.ts:213-229 | the walk changes no folder: the folder skeleton is the same before and after |
| ApiList.WalkOneFolders | controller/projects/index.ts:216-227 | walking a folder keeps the skeleton of its children |
| ApiList.FoldersOfEndpoints | controller/projects/index.ts:218-225 | api nodes add nothing to the skeleton |
| ApiList.MoreFuelSameWalk | controller/projects/index.ts:213-229 | once a walk ends, more fuel gives the same tree |
| ApiList.MoreFuelSameNode | controller/projects/index.ts:216-227 | once a node's walk ends, more fuel gives the same node |
| ApiList.MoreFuelUpTo | controller/projects/index.ts:213-229 | any larger fuel gives the same tree |
| ApiList.ApiChain | controller/projects/index.ts:216-227 | an api whose walk does not end within n levels heads a chain of n+1 apis of method 'dictionary', each filed under the one before |
| ApiList.FindRepeat | controller/projects/index.ts:217 | a chain of api rows longer than the table repeats a row |
| ApiList.NodeBlocked | controller/projects/index.ts:216-227 | a 'dictionary' node with a filed api whose walk does not end does not end either |
| ApiList.BlockingApi | controller/projects/index.ts:216-227 | a 'dictionary' node whose own children end but whose walk does not has a filed api whose walk does not end |
| ApiList.LoopNone | controller/projects/index.ts:216-227 | the apis on a loop of the chain never finish their walk, whatever the fuel |
| ApiList.LoopStep | controller/projects/index.ts:216-227 | each api of the loop is blocked by the next one |
| ApiList.ApiNever | controller/projects/index.ts:216-227 | an api not walked within as many levels as there are apis is never walked |
| ApiList.WalkNone | controller/projects/index.ts:213-229 | a walk that does not end with more fuel than apis does not end with any fuel |
| ApiList.WalkOneNone | controller/projects/index.ts:216-227 | a node not walked with more fuel than apis is not walked with any fuel |
| ApiList.ApiBlockedNever | controller/projects/index.ts:216-227 | a node blocked by a filed api with more fuel than apis is blocked with any fuel |
| ApiList.WalkFuelIndependent | controller/projects/index.ts:213-229 | with more fuel than apis the walk gives the tree of every fuel that gives one: the bound loses no reply |
| ApiList.WalkNoneNeedsDictionaryApi | controller/projects/index.ts:216 | a walk that does not end needs an api of method 'dictionary' |
| ApiList.WalkOneNoneNeedsDictionaryApi | controller/projects/index.ts:216 | a node walk that does not end needs an api of method 'dictionary' |
| ApiList.SelfFiledApi | controller/projects/index.ts:216-227 | an api of method 'dictionary' filed under its own id is never walked: the source's walk never ends there |
| ApiList.DictionaryApiExample | controller/projects/index.ts:216-227 | an api of method 'dictionary' in the root holds the api filed under its id |
| ApiList.GetApiList | controller/projects/index.ts:178-244 | no root folder gives the 500 reply; a reply is always one folder node |
| ApiList.TreeOf | controller/projects/index.ts:186-231 | no root folder gives no tree; a tree is always one folder node |
| ApiList.TreeAt | controller/projects/index.ts:186-231 | no root folder gives no tree; a tree is always one folder node |
| ApiList.TreeAtFuel | controller/projects/index.ts:213-230 | any fuel that gives a tree gives the tree of TreeOf |
| ApiList.TreeOfShape | controller/projects/index.ts:186-231 | with a root folder the tree exists exactly when its folders are built and the walks of its subfolders and of its own apis end; it is then the root's node holding its walked subfolders followed by its walked apis |
| ApiList.TreeOfUniqueIds | controller/projects/index.ts:186-231 | with ids as keys, a project with a root folder gets its tree unless some api has the method 'dictionary' |
| ApiList.GetApiListDefined | controller/projects/index.ts:178-244 | with ids as keys and a root folder, no reply needs an api of method 'dictionary' |
| YamlImport.ParamClass | controller/projects/index.ts:575-607 | GET: query 0, header 4, cookie 3; POST: formData 1, query 2, cookie 3, header 4; anything else 0 |
| YamlImport.ParamTypeCode | controller/projects/index.ts:617-625 | number 0, integer 1, string 2, anything else 3 |
| YamlImport.Classes | controller/projects/index.ts:571-607 | the class of each parameter, in order |
| YamlImport.FindGroup | controller/projects/index.ts:609 | -1 exactly when no group has the class; otherwise the first group that has it |
| YamlImport.FirstSeenMembers | controller/projects/index.ts:609-620 | first-seen order lists each class once and no other |
| YamlImport.EntriesMembers | controller/projects/index.ts:609-627 | an entry is in a class's list exactly when it comes from a parameter of that class |
| YamlImport.GroupParameters | controller/projects/index.ts:570-628 | one group per class, in first-seen order, each holding its parameters in order |
| YamlImport.OpenGroupStep | controller/projects/index.ts:610-620 | a new class opens a group at the end |
| YamlImport.ExtendGroupStep | controller/projects/index.ts:621-627 | a class already met joins the end of its group |
| YamlImport.ExtendedGroupAt | controller/projects/index.ts:621-627 | after the push, each group keeps its class and holds its class's entries |
| YamlImport.OtherGroupKept | controller/projects/index.ts:621-627 | groups of other classes keep their entries |
| YamlImport.NoEntriesUnseen | controller/projects/index.ts:609-620 | a class not yet met has no entries |
| YamlImport.ResponseStatus | controller/projects/index.ts:641 | the key 'default' becomes status 0 |
| YamlImport.ResponseStatusRoundTrip | controller/projects/index.ts:641 | a decimal status key reads back as its status, and 'default' cannot be told from status 0 |
| YamlImport.ImportResponses | controller/projects/index.ts:639-646 | one response per key, in the order the keys are visited, each with its key's status, description and schema text |
| YamlImport.EntryOf | controller/projects/index.ts:611-626 | the entry keeps the parameter's name, gets a type code from 0 to 3 and no value |
| YamlImport.EntriesOf | controller/projects/index.ts:609-627 | at most one entry per parameter, none with a value |
| YamlImport.FirstSeen | controller/projects/index.ts:609-620 | no class is listed twice, and every class listed occurs in the input |
| YamlImport.JsNumber | controller/projects/index.ts:641 | the empty key reads as 0; a key is not a number exactly when some character is not a digit |
| GlobalInfo.GetGlobalParams | controller/projects/index.ts:343-361 | groups for father_type 0, 1, 2 in increasing order; a type has a group exactly when the project has parameters of it, and the group lists them in order |
| GlobalInfo.GetGlobalInfo | controller/projects/index.ts:339-387 | the grouped parameters; a variable view is listed exactly when some variable row of the project has those fields; an environment entry is listed exactly when some environment row of the project has that type and url |
| GlobalInfo.ProjectParamsMembers | controller/projects/index.ts:344 | exactly the project's rows |
| GlobalInfo.OfTypeMembers | controller/projects/index.ts:346 | exactly the rows of the type |
| GlobalInfo.Views | controller/projects/index.ts:350-358 | one view per row, in order, each carrying exactly its row's id, name, type, value and description |
| GlobalInfo.GroupStep | controller/projects/index.ts:345-361 | one round of the loop keeps the grouping |
| GlobalInfo.OpenGroup | controller/projects/index.ts:347-360 | a type with parameters opens a group at the end |
| GlobalInfo.OpenGroupBounds | controller/projects/index.ts:347-360 | types stay in range and lists stay non-empty |
| GlobalInfo.OpenGroupTypes | controller/projects/index.ts:345-360 | types stay strictly increasing |
| GlobalInfo.OpenGroupLists | controller/projects/index.ts:346-358 | each list is the parameters of its type |
| GlobalInfo.SkipType | controller/projects/index.ts:347 | a type without parameters adds no group |
| GlobalInfo.HasGroupSnoc | controller/projects/index.ts:348 | the new group's type is the one type added |
| GlobalInfo.ProjectVariablesListed | controller/projects/index.ts:364-373 | every variable of the project is listed with its fields |
| GlobalInfo.ProjectVariablesOnly | controller/projects/index.ts:364-373 | every listed view is the view of a variable row of the project |
| GlobalInfo.ProjectEnvsListed | controller/projects/index.ts:376 | every environment of the project is listed with its type and url |
| GlobalInfo.ProjectEnvsOnly | controller/projects/index.ts:376 | every listed entry comes from an environment row of the project |
| GlobalInfo.ProjectParams | controller/projects/index.ts:344 | every row returned belongs to the project, and there are no more than the table holds |
| GlobalInfo.OfType | controller/projects/index.ts:346 | every row returned has the type, and there are no more than given |
| GlobalInfo.ProjectVariables | controller/projects/index.ts:364-373 | no more views than variable rows |
| GlobalInfo.ProjectEnvs | controller/projects/index.ts:376 | no more entries than environment rows |
| GlobalInfo.DeleteParam | controller/projects/index.ts:424 | no row left has the id, and the table does not grow |
| GlobalInfo.ApplyParamItem | controller/projects/index.ts:412-425 | an insert adds one row and spends one id; an update or delete spends no id and adds no row |
| GlobalInfo.ApplyParamItems | controller/projects/index.ts:405-426 | one group's items spend at most one id each |
| GlobalInfo.ApplyParamGroups | controller/projects/index.ts:401-428 | the counter never goes back |
| GlobalInfo.ApplyVariableItem | controller/projects/index.ts:440-449 | an insert adds one row and spends one id; an update or delete spends no id and adds no row |
| GlobalInfo.ApplyVariableItems | controller/projects/index.ts:431-451 | the items spend at most one id each |
| GlobalInfo.UpdateEnvs | controller/projects/index.ts:454-460 | the table keeps its length and every row its project and type; rows of other projects are unchanged |
| GlobalInfo.AbsentVariableNotListed | controller/projects/index.ts:364-373 | an id no row carries is never listed |
| GlobalInfo.WithUrl | controller/projects/index.ts:376 | the list keeps its length and every entry's type |
| GlobalInfo.UpdatedEnvListed | controller/projects/index.ts:454-460 | after an env update, the project's list is the old one with that type's url replaced |
| GlobalInfo.WithUrlEntries | controller/projects/index.ts:454-460 | the updated type shows the new url; other entries are as before |
| GlobalInfo.UpdateParam | controller/projects/index.ts:412-413 | the row with the id takes the item's fields and keeps its project and type; every other row is unchanged |
| GlobalInfo.DeleteParamMembers | controller/projects/index.ts:424 | exactly the rows with other ids remain |
| GlobalInfo.UpdateVariable | controller/projects/index.ts:440-444 | the row with the id takes the item's fields; every other row is unchanged |
| GlobalInfo.DeleteVariable | controller/projects/index.ts:448 | exactly the rows with other ids remain |
| GlobalInfo.UpdateEnv | controller/projects/index.ts:458 | the project's row of the type takes the url; every other row is unchanged |
| GlobalInfo.ParamItemKeepsIds | controller/projects/index.ts:412-425 | every action keeps ids below the counter |
| GlobalInfo.ParamGroupsKeepIds | controller/projects/index.ts:401-428 | the whole params loop keeps ids below the counter |
| GlobalInfo.ParamItemsKeepIds | controller/projects/index.ts:405-426 | one group's items keep ids below the counter |
| GlobalInfo.InsertThenDelete | controller/projects/index.ts:414-424 | an insert (action 1), then a delete (any other action) of the id it got, gives back the rows |
| GlobalInfo.DeleteAbsentParam | controller/projects/index.ts:424 | deleting an absent id changes nothing |
| GlobalInfo.UpdateParamIdempotent | controller/projects/index.ts:412-413 | the update is idempotent, and an absent id changes nothing |
| GlobalInfo.InsertedParamListed | controller/projects/index.ts:414-422 | an inserted parameter is listed under its type afterwards |
| GlobalInfo.DeletedParamNotListed | controller/projects/index.ts:423-424 | after a delete no row has the id |
| GlobalInfo.InsertedVariableListed | controller/projects/index.ts:440-451 | an inserted variable is listed afterwards under its new id |
| GlobalInfo.DeletedVariableNotListed | controller/projects/index.ts:447-448 | after a delete no listed variable has the id |
| GlobalInfo.EnvsOfOtherProjects | controller/projects/index.ts:454-460 | other projects' environments are never touched |
| GlobalInfo.GlobalStore.constructor | controller/projects/index.ts:397-473 | empty parameter and variable tables over the given environments |
| GlobalInfo.GlobalStore.ApplyParam | controller/projects/index.ts:412-425 | action 0 updates, 1 inserts under the group's type with a fresh id, any other deletes; variables and envs are untouched |
| GlobalInfo.GlobalStore.ApplyVariable | controller/projects/index.ts:440-449 | action 0 updates, 1 inserts with a fresh id, any other deletes; params and envs are untouched |
| GlobalInfo.GlobalStore.UpdateParams | controller/projects/index.ts:401-428 | every item of every group, in order |
| GlobalInfo.GlobalStore.UpdateVariables | controller/projects/index.ts:431-451 | every variable item, in order |
| GlobalInfo.GlobalStore.UpdateEnvList | controller/projects/index.ts:454-460 | every env item, in order, for the project only |
| GlobalInfo.GlobalStore.UpdateGlobalInfo | controller/projects/index.ts:397-473 | params, then variables, then envs, each only when present; replies with the project id |
| Utils.FirstMissing | utils/index.ts:5-11 | undefined exactly when every required name is a key; otherwise the first required name, in order, that is not a key |
| Utils.ExtraKeysIrrelevant | utils/index.ts:5-11 | extra client keys never change the result |
| Utils.Two | utils/index.ts:40-44 | a number below 100 gives two digits that read back as it |
| Utils.PresentTimeFields | utils/index.ts:37-47 | 'YYYY-MM-DD HH:mm:ss': the year, then five zero-padded two-digit fields behind fixed separators; the month is getMonth()+1 |
| Utils.StampLayout | utils/index.ts:46 | where the separators and fields of the template sit |
| Utils.PresentTime | utils/index.ts:37-47 | the stamp starts with the year followed by a dash |
| Validators.SomeIn | paramsValidator/teamsValidator.ts:5 | true exactly when some listed name is a key |
| Validators.AtLeastOneOf | paramsValidator/teamsValidator.ts:3-10 | true exactly when some listed name is a key of the body, whatever its value; otherwise it throws the fixed message; a missing body counts as {} |
| Validators.UpdateTeamRule | paramsValidator/teamsValidator.ts:23 | update-team passes exactly with team_name, team_desc or team_user_name |
| Validators.SetMemberIdentityRule | paramsValidator/teamsValidator.ts:34 | set-member-identity passes exactly with team_user_identity, team_user_name or team_project_indentity_list |
| Validators.UpdateInfoRule | paramsValidator/usersValidator.ts:23-27 | update-info passes exactly with username or introduce |
| Validators.MissingBodyFails | paramsValidator/usersValidator.ts:3-10 | a null or undefined body fails every one-of rule |
| Validators.DigitsExactlyIff | paramsValidator/usersValidator.ts:19 | `^\d{n}$` accepts exactly the strings of n digits |
| Validators.CaptchaIsSixDigitNumber | paramsValidator/usersValidator.ts:17-37 | a captcha is valid exactly when it is six digits, so it reads as a number below one million; every such number written with six digits is valid |
| Validators.PaddedDigits | paramsValidator/usersValidator.ts:19 | k digits |
| Validators.PaddedDigitsParse | paramsValidator/usersValidator.ts:19 | padded digits read back as the number |
| Validators.SixDigitsParse | paramsValidator/usersValidator.ts:19 | a number below one million, written with six digits, reads back as itself |
| Validators.ParseBelow | paramsValidator/usersValidator.ts:19 | n digits read below 10^n |
| Validators.DigitsExactly | paramsValidator/usersValidator.ts:19 | a string matching `^\d{n}$` has length n |
| Validators.CaptchaValid | paramsValidator/usersValidator.ts:17-19 | a valid captcha is present and six characters long |
| Text.DropLast | controller/apis/index.ts:150-201 | `substring(0, length - 1)` drops the last character, and gives "" on "" |
| Text.NatToString | controller/apis/index.ts:131-187 | decimal digits without leading zeros that read back as the number |
| Text.IntToString | utils/index.ts:39 | the decimal text, with a '-' for a negative number |
| Text.PadStart2 | utils/index.ts:40-44 | `padStart(2, '0')`: unchanged from two characters on, otherwise left-padded with '0' to two |
| Text.RemoveAll | controller/apis/index.ts:191 | no occurrence of the character remains |
| Text.RemoveAllCounts | controller/apis/index.ts:191 | every other character is kept as often, and the length drops by the number removed |
| Text.StripNewlinesAndTabs | controller/apis/index.ts:191 | no '\n' and no '\t' remains |
| Text.StripKeepsOthers | controller/apis/index.ts:191 | every other character is kept as often |
| Text.RemoveAllIdempotent | controller/apis/index.ts:191 | removing twice is removing once |
| Text.RemoveAllOfFree | controller/apis/index.ts:191 | text without the character is unchanged |
| Text.DigitChar | utils/index.ts:39-44 | a digit character that reads back as the digit |

## Left out

- I/O and libraries are not modelled:
  - the HTTP layer and the JSON replies (only status, result_code and result are kept);
  - the MySQL driver, and the `axios` call with the mock branch of `runApi`;
  - `qs.stringify`, which the model keeps as the object it is given;
  - `yaml.load`, the file read, `JSON.parse`/`JSON.stringify` of schemas, and the `$ref`
    resolution of `uploadYaml`, whose schemas are opaque strings;
  - the rest of `uploadYaml`: its inserts and its response bodies.
- Concurrency is not modelled. The `forEach(async …)` inserts are taken as sequential, in
  array order, and each handler runs to completion with no crash point. The source has no
  transaction, so a failure between statements could leave a half-written version; the
  model does not capture that.
- Timestamps and auto-increment ids come from one counter that only grows. The real
  columns are independent, and `createdAt` values can tie within a second; the model
  takes that order as strict.
- Values read from other tables are parameters:
  - the session's `user_id`;
  - `runApi`'s `api_method`/`api_url`, its environment lookup (`project_current_type`,
    `env_baseurl`) and the unwrapping of a global's string value;
  - the current date of `getPresentTime`.
- Cookies and globals:
  - `runApi` fills `Cookies` but never sends it; the model does the same.
  - Globals with a `father_type` outside 0 to 2 are skipped, as in the source.
- ApiList.TreeOfUniqueIds and ApiList.GetApiListDefined: they do not promise a tree for
  every project with a root folder. An api of method `'dictionary'` can keep the walk
  from ending, so they promise only that a missing tree needs such an api.
- Folder ids as keys: the model's tables are sequences and may repeat a `dictionary_id`.
  Where the proofs need ids to be keys, as the table's auto-increment ids are, they take
  `UniqueIds` as a hypothesis.
- YamlImport.JsNumber: `Number(key)` is modelled for decimal digit strings and "" only.
  Other keys (hex, exponents, spaces) are taken as not a number.
- Validators.AtLeastOneOf: JavaScript's `in` also finds inherited properties such as
  `toString`. The model checks own keys only, which agrees for every name the rules list.
- Validators.CaptchaValid: the `isString()` check is modelled as "the field is a string";
  other JSON types fail it.
- Text.NatToString: covers the integers the handlers print, which are ids and date
  parts; it is not a model of JavaScript's number formatting in general.
- `getApiInfo`, `runApi`'s response handling, and every handler not named above are not
  part of this model. These include the team, user, dictionary and project
  pass-through handlers, and the older controller files controller/apis.ts and
  controller/projects.ts.
