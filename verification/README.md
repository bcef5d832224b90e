# Verified model of the framework's menus, accounts, filters and listings

This project models six parts of the framework and proves what they keep and promise.
`dafny verify dfyconfig.toml` checks everything.

* **Menus** (`Inheritance`, `MenuItems`, `Menus`, `TopMenu`). A menu is a set of nested list
  objects that the operations change in place. A ghost forest says what the lists hold; inserting
  and removing are proved against two rewrites of that forest, and permission lookup, which writes
  a default at the top of a parent chain, against a function of the links.
* **Accounts** (`AccountModel`, `AccountLaws`, `AccountFailures`, `AccountLookups`, `UserAccounts`,
  `AccountManager`). The manager works on
  the principals, an authentication back-end and a cache. Every operation is a method with its explicit
  transaction and is proved equal to one step of a state machine; a step takes a number `fuse` of external
  calls (saves, back-end writes, event posts) that still succeed, so that each possible point of
  failure is one value of `fuse`. The laws are about all runs of such steps. The back-end takes part in
  the transaction or not, by a parameter.
* **Filter configurations** (`Json`, `FilterComponents`, `FilterViews`, `SearchExpressions`, `Queries`,
  `FilterConfigs`). A configuration prints itself as JSON and is read back against a shared template;
  its filtered columns compile to query expressions, which are evaluated over rows. Values of the wrong kind
  may occur, and are printed as the component's default.
* **Stored filters** (`FilterStores`, `FilterStoreLaws`, `SavedFilters`, `FilterTables`, `FilterActions`,
  `FilterLoads`). The actions that load, store, create, save, clear, change, edit and delete filters are methods
  on record objects that are read, changed and saved in the order of the code, proved equal to the
  steps of a state machine over all users' filters. Each record has a version, and a save is refused when
  somebody wrote the record since it was read; saves write whole records or changed fields only, by a parameter.
* **Listings** (`Sorting`, `PostQueries`, `Paginations`, `Listings`, `SortClicks`). Filters are split
  between the database and in-memory predicates, rows are counted in one place and sliced in
  another, and the column headers decide the order.
* **Arithmetic and encoding** (`WorkingDays`, `Escapes`).

`FrameworkConstants` and `Wrappers` hold what several parts share.

## What the proofs found

The model follows the code. Where the code does less than its documentation or its purpose says,
a lemma gives the exact condition.

* `addMenuItemBefore` inserts one place too early unless the anchor is first in its list
  (`MenuItems.BeforeIsAdjacentOnlyForFirst`).
* `removeMenuItem` throws when any uuid is blank, and then removes nothing (`TopMenu.Menu.RemoveMenuItem`).
* The default permissions that a lookup stores hide those of a parent that the top item gets later, for every item
  below it that owns none, if and only if these are not the default (`Inheritance.MemoHidesALaterParent`).
* A creation whose event post fails leaves an account in a non-transactional back-end, and its uid
  can then never be used (`AccountLaws.CreateOrphansIff`, `AccountLaws.OrphanForever`).
* Changing the account type drops every default role that the account held before
  (`AccountLaws.ChangedTypeHoldsDefaultsIff`).
* Removing roles and changing the account type run without a transaction: for each point of failure
  `AccountFailures.RemovalIsPrefix` and `AccountFailures.ChangeOfTypeIsPrefix` say which rows are left. A removal
  keeps the roles as they were if and only if its first call failed or no known role was held before the first
  unknown name (`AccountFailures.RemovalKeepsRolesIff`, with an input in `AccountFailures.HalfARemoval`); a change
  of type, if and only if its first call failed or there was nothing to change
  (`AccountFailures.ChangeOfTypeKeepsPrincipalIff`).
* An autocomplete column fails to print a `String[]` or a `Date[]` value, as both are `Object[]`, and a date range
  a null date (`FilterComponents.ValueRoundTrip`, `FilterViews.PrintableIff`).
* A text filter with a star means what it says if and only if it has no `%`, no `_`, and no backslash
  before its last character (`SearchExpressions.GlobFaithfulIff`).
* A date range ends on the last second of its last day if and only if the upper instant lies before noon
  and on a whole second, because the code sets the 12-hour field (`SearchExpressions.DateBoundIff`). For all
  components `SearchExpressions.FaithfulIff` says for exactly which values the compiled filter keeps what it means.
* Changing to the filter that is selected already deselects it, because the filter was read before the old
  selection was cleared: where only changed fields are saved there is nothing left to write, and where whole
  records are saved the version check refuses the write with an error (`SavedFilters.ChangedTo`). A user gets
  there by changing to a filter that was just created (`SavedFilters.CreatedThenChangedTo`).
* A null default of a text or numeric filter prints as a null, which reads back as the text "null"
  (`FilterComponents.ValueRoundTrip`).
* Deleting a filter after the default filter was cleared deletes it and answers an error
  (`FilterStoreLaws.FailsIff`).
* "More pages" is announced although the window ends on the last page, under an exact condition
  (`Paginations.MoreIsWrongOnTheLastPageIff`).
* Escaping and reading a properties text gives it back if and only if it has no backslash
  (`Escapes.ReadsBackIff`).

## Model

| member | source | states |
|---|---|---|
| `Inheritance.MemoIsInvisible` | app/framework/utils/Menu.java:256-266 | Looking up the permissions of one item changes the answer of no item |
| `Inheritance.RunsOfLookupsAgree` | app/framework/utils/Menu.java:256-266 | In every sequence of lookups each answer is the nearest ancestor's own permissions, or the default, of the untouched items |
| `Inheritance.EffectiveIsFirstOwned` | app/framework/utils/Menu.java:256-266 | The answer is what the first item that owns permissions, counted from the item upwards, owns; the default if none does |
| `Inheritance.MemoHidesALaterParent` | app/framework/utils/Menu.java:256-266 | For a lookup at any item before the top item of a chain gets a parent, and the answer of any item after it: the answer is that of the untouched items, unless both items owned nothing up to that top item and the new parent's permissions are not the default |
| `MenuItems.MenuItem.GetAuthorizedPermissions` | app/framework/utils/Menu.java:256-266 | The answer is the nearest permissions up the parent links, else the private default, which is stored at the top item and nowhere else |
| `MenuItems.MenuItem.SetAuthorizedPermissions` | app/framework/utils/Menu.java:279-281 | Only this item's own permissions change |
| `MenuItems.MenuItem.AddSubMenuItem` | app/framework/utils/Menu.java:353-356 | The item goes to the end of the header's list and gets the header as parent |
| `MenuItems.HasIsPreorder` | app/framework/utils/Menu.java:113-137 | The search finds a uuid exactly when some item of the preorder walk has it |
| `MenuItems.FirstMatchAtHost` | app/framework/utils/Menu.java:113-137 | The item beside which the new one goes is the first match of the preorder walk |
| `MenuItems.PruneKeepsUntouchedPaths` | app/framework/utils/Menu.java:166-178 | After a removal the items left are exactly those with no listed uuid on themselves or an ancestor, in their old order and places |
| `MenuItems.PruneTwice` | app/framework/utils/Menu.java:147-178 | Removing one set of uuids and then another is removing both at once |
| `MenuItems.RemoveUndoesInsert` | app/framework/utils/Menu.java:89-178 | Inserting an item with a fresh uuid, on either side of any item, and then removing that uuid restores the menu |
| `MenuItems.BeforeIsAdjacentOnlyForFirst` | app/framework/utils/Menu.java:96-131 | The item inserted "before" another stands next to it only when that one was first in its list |
| `MenuItems.InsertAtTarget` | app/framework/utils/Menu.java:113-137 | The list that holds the first match of the preorder walk keeps its items in their order and gains the new one at the slot beside that match |
| `MenuItems.InsertElsewhere` | app/framework/utils/Menu.java:113-137 | Every other list of the menu holds what it held, and the lists below the new item come with it |
| `Menus.RecursiveAddMenuItem` | app/framework/utils/Menu.java:113-137 | True exactly when the uuid is reachable; the lists then represent the forest with the item spliced in, and are unchanged otherwise |
| `Menus.RecursiveRemoveMenuItem` | app/framework/utils/Menu.java:166-178 | The nested lists represent the pruned forest, although the loop walks over copies of what it changes |
| `TopMenu.Menu.AddMenuItem` | app/framework/utils/Menu.java:56-58 | The item goes to the end of the top list |
| `TopMenu.Menu.AddMenuItemAfter` | app/framework/utils/Menu.java:89-94 | Added exactly when the uuid is not blank and present; then the list with the first item of that uuid in the preorder walk has the new item right after it, and every other list object is as it was; otherwise all of them are |
| `TopMenu.Menu.AddMenuItemBefore` | app/framework/utils/Menu.java:106-111 | The same on the other side: the new item comes first where the found one was first, and else before the item that precedes it |
| `TopMenu.Menu.AddSubMenuItemTo` | app/framework/utils/Menu.java:68-77 | The first top-level header with the uuid takes the item at the end of its list and becomes its parent, and no other list changes; false and no change without one |
| `TopMenu.Menu.RemoveMenuItem` | app/framework/utils/Menu.java:147-157 | Fails exactly when a uuid is blank, and then changes no list; otherwise prunes |
| `TopMenu.Menu.Clear` | app/framework/utils/Menu.java:180-184 | The menu is empty |
| `AccountLaws.StepKeepsConsistent` | app/framework/services/account/AccountManagerPluginImpl.java:201-593 | Wherever its calls break off, an operation keeps a back-end account for every principal and in the cache only what would be computed afresh |
| `AccountLaws.RunKeepsConsistent` | app/framework/services/account/AccountManagerPluginImpl.java:201-593 | So does every run of operations |
| `AccountLaws.InconsistencyOnlyOnSecondCreate` | app/framework/services/account/AccountManagerPluginImpl.java:180-189 | From an empty installation on, the inconsistency error arises exactly on creating an account whose principal exists |
| `AccountLaws.LookupIsFresh` | app/framework/services/account/AccountManagerPluginImpl.java:575-593 | In every reachable state a lookup, cached or not, answers what the two stores give now (see `AccountLookups.ReachedLookupShows` for what that is) |
| `AccountLaws.CacheIsInvisible` | app/framework/services/account/AccountManagerPluginImpl.java:746-809 | No operation answers differently or stores anything different for another consistent cache |
| `AccountLaws.ExpiryIsInvisible` | app/framework/services/account/AccountManagerPluginImpl.java:746-809 | A run and the same run without the expiry of cache entries end in the same stores, and every operation after them answers the same |
| `AccountLaws.ChangedPasswordStays` | app/framework/services/account/AccountManagerPluginImpl.java:201-209 | With the back-end in master mode a changed password is the account's password after any run that neither changes it again nor deletes the account |
| `AccountLaws.CreateOrphansIff` | app/framework/services/account/AccountManagerPluginImpl.java:212-259 | A creation leaves a back-end account without a principal exactly when the event post fails and the back-end is outside the transaction |
| `AccountLaws.OrphanForever` | app/framework/services/account/AccountManagerPluginImpl.java:212-259 | No later run removes such an account or can create a user with its uid |
| `AccountLaws.OverwriteSetsRoleNames` | app/framework/services/account/AccountManagerPluginImpl.java:533-572 | Overwriting the roles leaves live roles of exactly the listed names |
| `AccountLaws.AddRolesAddsNames` | app/framework/services/account/AccountManagerPluginImpl.java:433-462 | Adding roles gives the listed names beside those held before |
| `AccountLaws.RemoveRolesRemovesNames` | app/framework/services/account/AccountManagerPluginImpl.java:465-492 | Removing roles takes away every live row of a listed name and no other row |
| `AccountLaws.ChangedTypeHoldsDefaultsIff` | app/framework/services/account/AccountManagerPluginImpl.java:315-332 | After a change of type the roles are the defaults not held before, so all defaults are held exactly when none was |
| `AccountLookups.AccessIsLive` | app/framework/services/account/AccountManagerPluginImpl.java:746-809 | The permissions of an account are those that some live role gives, the selectable ones those that some live role gives as selectable |
| `AccountLookups.NamesAreInOrder` | app/framework/services/account/AccountManagerPluginImpl.java:746-809 | The role names of an account are those of its live roles, in their order |
| `AccountLookups.ReachedLookupShows` | app/framework/services/account/AccountManagerPluginImpl.java:575-593 | In every state that a run reaches, a lookup finds exactly the uids with a principal, and shows each personal field from its store, active if and only if both stores say so, and exactly the permissions and names of the live roles |
| `AccountLookups.ExistsIffFound` | app/framework/services/account/AccountManagerPluginImpl.java:180-189 | A uid exists exactly when a lookup finds an account |
| `AccountLookups.DeletedIsMissing` | app/framework/services/account/AccountManagerPluginImpl.java:388-430 | After a deletion no lookup finds the account |
| `AccountLookups.RemovedPermissionsAreGone` | app/framework/services/account/AccountManagerPluginImpl.java:465-492 | After a removal of roles a lookup shows exactly the permissions that a live role with another name gives |
| `AccountLookups.CreatedIsShown` | app/framework/services/account/AccountManagerPluginImpl.java:212-259 | A new account shows the given data, is active and displayed, and has exactly the requested roles, where the type allows it, and the defaults of its type |
| `AccountLookups.ActiveRolesAre` | app/models/framework_models/account/SystemLevelRoleType.java:119-121 | The roles that may be asked for are the live selectable ones |
| `AccountLookups.DefaultsAre` | app/models/framework_models/account/SystemLevelRoleType.java:112-114 | The defaults of a type are the live roles that name it |
| `AccountLookups.UpdateIsShown` | app/framework/services/account/AccountManagerPluginImpl.java:201-385 | An update of name, mail, language, activation, password or type that succeeded is what the stores hold and every later lookup shows, after any run that neither sets the same data nor deletes the account |
| `AccountFailures.RemovalIsPrefix` | app/framework/services/account/AccountManagerPluginImpl.java:465-492 | For every point of failure: the rows deleted are the first of those that the known names before the first unknown one ask for, one for each call that succeeds, and the answer |
| `AccountFailures.RemovalKeepsRolesIff` | app/framework/services/account/AccountManagerPluginImpl.java:465-492 | A removal, failed or not, keeps the roles as they were if and only if its first call failed or no known role was held before the first unknown name |
| `AccountFailures.HalfARemoval` | app/framework/services/account/AccountManagerPluginImpl.java:465-492 | Of two roles to remove one is gone when the second call fails |
| `AccountFailures.RemoveRoleIsRemoveRoles` | app/framework/services/account/AccountManagerPluginImpl.java:514-530 | Removing one role is removing a list of one, at every point of failure |
| `AccountFailures.ChangeOfTypeIsPrefix` | app/framework/services/account/AccountManagerPluginImpl.java:315-332 | For every point of failure: the roles are dropped one by one, then the defaults not held before are added one by one, then the type is written |
| `AccountFailures.ChangeOfTypeKeepsPrincipalIff` | app/framework/services/account/AccountManagerPluginImpl.java:315-332 | A change of type, failed or not, keeps the principal as it was if and only if its first call failed or there were no roles, no defaults and no other type |
| `AccountFailures.ProfileUpdateLeaves` | app/framework/services/account/AccountManagerPluginImpl.java:279-353 | A name or mail is in the back-end exactly if its account exists and the first call succeeded, whatever fails later; when the update succeeds |
| `AccountFailures.LanguageUpdateLeaves` | app/framework/services/account/AccountManagerPluginImpl.java:297-312 | The language is stored exactly if the first call succeeded, also when the event is not posted |
| `AccountFailures.ActivationLeaves` | app/framework/services/account/AccountManagerPluginImpl.java:356-385 | Both stores change or neither, but for a back-end outside the transaction when only the event fails |
| `AccountFailures.DeletionLeaves` | app/framework/services/account/AccountManagerPluginImpl.java:388-430 | The account is gone from both stores or from neither, and no other account changes |
| `AccountFailures.PasswordOrResyncLeaves` | app/framework/services/account/AccountManagerPluginImpl.java:201-276 | When a password change and a resynchronisation succeed, and that they leave the principals alone |
| `AccountFailures.BrokenAccountsAreReported` | app/framework/services/account/AccountManagerPluginImpl.java:180-189 | A principal without a back-end account is reported as inconsistent by every operation that looks it up, an unknown uid in its own way by each, and nothing changes |
| `AccountFailures.RoleChangesAreWhole` | app/framework/services/account/AccountManagerPluginImpl.java:433-572 | Adding and overwriting roles change everything or nothing, and succeed exactly if every name is known and there is a call for each row and the event |
| `AccountFailures.RoleAdditionLeaves` | app/framework/services/account/AccountManagerPluginImpl.java:495-511 | One unheld known role is added if the first call succeeds, and stays when the event fails |
| `AccountFailures.FixedRolesStay` | app/framework/services/account/AccountManagerPluginImpl.java:433-572 | The roles of an account type whose roles are fixed never change, and the answer is success |
| `AccountManager.Manager.CreateNewUserAccount` | app/framework/services/account/AccountManagerPluginImpl.java:212-259 | For every point of failure: the account is in both stores, or the principals are as before; the back-end keeps a written account where it is not transactional |
| `AccountManager.Manager.UpdatePassword` | app/framework/services/account/AccountManagerPluginImpl.java:201-209 | In master mode the back-end has the new password and nothing else changes, or it fails with the writer; otherwise neither store changes; the cache entry goes |
| `AccountManager.Manager.IsUserIdExists` | app/framework/services/account/AccountManagerPluginImpl.java:180-189 | False without a principal, an error without a back-end account, else true |
| `AccountManager.Manager.Resync` | app/framework/services/account/AccountManagerPluginImpl.java:262-276 | Neither store changes and the cache entry goes; fails for an unknown or inconsistent uid and for a failing event |
| `AccountManager.Manager.UpdateBasicUserData` | app/framework/services/account/AccountManagerPluginImpl.java:279-294 | The back-end has the new names, also when the later check or event fails; nothing else changes |
| `AccountManager.Manager.UpdateMail` | app/framework/services/account/AccountManagerPluginImpl.java:335-353 | The back-end has the new mail, also when the later check or event fails; nothing else changes |
| `AccountManager.Manager.UpdatePreferredLanguage` | app/framework/services/account/AccountManagerPluginImpl.java:297-312 | The principal has the new language, also when the event fails; an unknown or inconsistent uid changes nothing but the cache |
| `AccountManager.Manager.UpdateUserAccountType` | app/framework/services/account/AccountManagerPluginImpl.java:315-332 | For every point of failure: which role rows are gone and which are added, with no transaction around them; the type changes last |
| `AccountManager.Manager.UpdateActivationStatus` | app/framework/services/account/AccountManagerPluginImpl.java:356-385 | Both stores change or, where the back-end is transactional, neither |
| `AccountManager.Manager.DeleteAccount` | app/framework/services/account/AccountManagerPluginImpl.java:388-430 | Both stores lose the account or neither does; a failing event comes after the commit |
| `AccountManager.Manager.AddSystemLevelRoleTypes` | app/framework/services/account/AccountManagerPluginImpl.java:433-462 | All missing roles are added or none, for every point of failure; a type whose roles are fixed changes nothing |
| `AccountManager.Manager.RemoveSystemLevelRoleTypes` | app/framework/services/account/AccountManagerPluginImpl.java:465-492 | For every point of failure: the rows removed so far stay removed |
| `AccountManager.Manager.AddSystemLevelRoleType` | app/framework/services/account/AccountManagerPluginImpl.java:495-511 | One role is added unless held; an unknown role is an error |
| `AccountManager.Manager.RemoveSystemLevelRoleType` | app/framework/services/account/AccountManagerPluginImpl.java:514-530 | The live rows of one role go; an unknown role is an error only if there is a live role to compare with |
| `AccountManager.Manager.OverwriteSystemLevelRoleTypes` | app/framework/services/account/AccountManagerPluginImpl.java:533-572 | The missing roles are added and the unlisted ones removed together, or the rows stay as they were |
| `AccountManager.Manager.GetUserAccountFromUid` | app/framework/services/account/AccountManagerPluginImpl.java:575-593 | The back-end is asked first; a cached account is used without looking further, and a computed one (whose permissions are those of the live roles, `AccountLookups.AccessIsLive`) is cached; a principal without a back-end account is an error |
| `AccountManager.Manager.InvalidateUserAccountCache` | app/framework/services/account/AccountManagerPluginImpl.java:680-685 | The entry of the uid goes and no other |
| `AccountManager.Manager.AddingRolesToPrincipalForAccountType` | app/framework/services/account/AccountManagerPluginImpl.java:707-725 | Adds the requested roles where the type allows it, then the type's defaults |
| `AccountManager.Manager.AddSystemLevelRole` | app/models/framework_models/account/Principal.java:546-554 | Adds a row unless a live loaded role has the name; rows added since do not count |
| `AccountManager.Manager.RemoveRolesNamed` | app/models/framework_models/account/Principal.java:562-571 | Deletes the rows of all live loaded roles of the name |
| `AccountManager.Manager.RemoveAllSystemLevelRoles` | app/models/framework_models/account/Principal.java:576-582 | Deletes the rows of all loaded roles |
| `UserAccounts.CommonUserAccount.constructor` | app/framework/services/account/AbstractDefaultCommonUserAccount.java:50-52 | A new account has the default role and nothing else |
| `UserAccounts.CommonUserAccount.Fill` | app/framework/services/account/AbstractDefaultCommonUserAccount.java:178-191 | Every personal field is set, with the last login, and no role list changes |
| `UserAccounts.CreateUserAccount` | app/framework/services/account/AccountManagerPluginImpl.java:746-809 | The account has the personal data of both stores with the last login, is active only if both say so, and has each permission of its live roles once beside the default role |
| `Json.ReadsTrueIff` | app/framework/utils/FilterConfig.java:1376-1379 | A node reads as true exactly if it is true, a number but zero, or the text "true" between blanks |
| `Json.NumberReads` | app/framework/utils/FilterConfig.java:1589-1597 | A number reads as its digits, after a minus sign for a negative one |
| `Json.DigitsDenote` | app/framework/utils/FilterConfig.java:1589-1597 | The digits are the number in decimal, without leading zeros |
| `Json.NodesRead` | app/framework/utils/FilterConfig.java:1589-1597 | What null, boolean and number nodes read as when a text or a number is asked for |
| `FilterComponents.ValueRoundTrip` | app/framework/utils/FilterConfig.java:1348-2182 | For all component kinds and values: printing fails exactly for a null date and for another kind of array in an autocomplete column; else the value reads back as itself, or as the component's default when it has the wrong kind, if and only if its printed dates read back and no null is printed |
| `FilterComponents.ReadIsWellTyped` | app/framework/utils/FilterConfig.java:1293-1299 | Whatever is read from JSON has the kind that the component expects |
| `FilterComponents.PrintedValueFormat` | app/framework/utils/FilterConfig.java:1348-2182 | Under which field names each kind of value is printed |
| `FilterComponents.NullDatesReadAsNow` | app/framework/utils/FilterConfig.java:1728-1760 | The text "null" of either date reads as the current time |
| `FilterViews.ColumnRoundTrip` | app/framework/utils/FilterConfig.java:1187-1212 | A printed column reads back with the same display, filter and sort settings and the same value if and only if its value reads back |
| `FilterViews.PrintedColumnFormat` | app/framework/utils/FilterConfig.java:1187-1195 | Under which field names and sort names a column is printed |
| `FilterViews.PrintedNames` | app/framework/utils/FilterConfig.java:1187-1195 | A printed column lists each of its fields once |
| `FilterViews.PrintableIff` | app/framework/utils/FilterConfig.java:802-831 | A configuration prints exactly when each of its values does |
| `FilterViews.TemplatePrintsIff` | app/framework/utils/FilterConfig.java:500-507 | A configuration that was only given columns prints if and only if no default date is null, and its own text can then be read if and only if its printed dates can |
| `FilterViews.ConfigRoundTrip` | app/framework/utils/FilterConfig.java:802-882 | Whatever prints reads back, against any template with the same columns, with defaults for values of the wrong kind and an empty list for no selected rows, if and only if all its values do |
| `FilterViews.WellTypedRoundTrip` | app/framework/utils/FilterConfig.java:802-882 | For well-typed values nothing at all is lost, if and only if all values read back |
| `FilterViews.ParsedIsWellTyped` | app/framework/utils/FilterConfig.java:847-882 | A parsed configuration is well typed if its template is |
| `FilterConfigs.FilterConfig.CopyOf` | app/framework/utils/FilterConfig.java:205-217 | The copy shares the column table unless it is deep, has its own records with the same contents, and starts on the first page |
| `FilterConfigs.FilterConfig.AddColumnConfiguration` | app/framework/utils/FilterConfig.java:500-507 | Both tables gain the column, with the component's default value; a configuration that holds defaults only still does |
| `FilterConfigs.FilterConfig.ParseResponse` | app/framework/utils/FilterConfig.java:228-232 | Null exactly when some column of the document does not parse; else the template's columns with the document's values where it has them; the template, its table and its records never change |
| `FilterConfigs.FilterConfig.Unmarshall` | app/framework/utils/FilterConfig.java:847-882 | Fails exactly when a known column does not parse; unknown columns are ignored |
| `FilterConfigs.UserColumnConfiguration.Unmarshall` | app/framework/utils/FilterConfig.java:1207-1212 | Sets the fields one by one and fails exactly when the column does not parse |
| `FilterConfigs.UserColumnConfiguration.Marshall` | app/framework/utils/FilterConfig.java:1187-1195 | Prints the column, or fails on a value that cannot be printed |
| `FilterConfigs.FilterConfig.Marshall` | app/framework/utils/FilterConfig.java:802-831 | Fails exactly when a value cannot be printed; else prints every column once, in whatever order the map has, with the default for a value of the wrong kind |
| `FilterConfigs.FilterConfig.UpdateWithSearchExpression` | app/framework/utils/FilterConfig.java:716-729 | The expressions added keep exactly the rows that every filtered column keeps, in whatever order columns are visited |
| `FilterConfigs.FilterConfig.GetSearchExpression` | app/framework/utils/FilterConfig.java:736-757 | One expression that keeps the same rows; none when no column gives one |
| `FilterConfigs.FilterConfig.AdmitsWhatIsMeant` | app/framework/utils/FilterConfig.java:716-757 | For faithful filter values these are exactly the rows that the user means |
| `FilterConfigs.FilterConfig.UpdateWithSortExpression` | app/framework/utils/FilterConfig.java:767-778 | Adds the terms of each ascending or descending column that the database can sort by, one for each sort field of a selection or autocomplete column, and nothing else; `Listings.ListAfterClicks` says in which direction rows come out |
| `FilterConfigs.FilterConfig.SetCurrentPage` | app/framework/utils/FilterConfig.java:904-906 | Only the page changes |
| `SearchExpressions.LikeIsGlob` | app/framework/utils/FilterConfig.java:1441-1457 | On plain values the LIKE pattern matches exactly the texts that the starred value matches |
| `SearchExpressions.GlobFaithfulIff` | app/framework/utils/FilterConfig.java:1441-1457 | For every value, pattern and starred value agree on all texts if and only if the value has no percent sign, no underscore, and no backslash before its last character |
| `SearchExpressions.DateBoundIff` | app/framework/utils/FilterConfig.java:1698-1712 | The upper bound is the last second of the day if and only if the instant is before noon on a whole second; after noon it is near noon of the next day |
| `SearchExpressions.FaithfulIff` | app/framework/utils/FilterConfig.java:1358-2098 | The compiled expression and the meaning of a filter agree on all rows exactly for faithful values: a starred text must be plain, and a date range must end before noon on a whole second or be empty |
| `SearchExpressions.CompiledMeansMeant` | app/framework/utils/FilterConfig.java:1358-2098 | For each component kind and faithful value, the compiled expression keeps a row exactly when the filter means to keep it, comparator by comparator; a null value keeps every row |
| `SearchExpressions.ComparatorsDivide` | app/framework/utils/FilterConfig.java:1554-1576 | On kept rows: the three strict comparators divide the numbers at the filter's number, the other three are put together from them, and any other text keeps everything |
| `FilterTables.FilterConfiguration.Save` | app/models/framework_models/common/FilterConfiguration.java:52-99 | A new record is inserted; an existing one is written whole or by its changed fields with the next version, unless it has another version than was read: then the save fails |
| `FilterStores.NoLostUpdate` | app/models/framework_models/common/FilterConfiguration.java:52-53 | Of two objects that read the same record, the one that is saved later is refused or writes nothing |
| `FilterTables.FilterConfiguration.DoDelete` | app/models/framework_models/common/FilterConfiguration.java:95-99 | The record is marked deleted and kept |
| `FilterTables.FilterConfiguration.Deselect` | app/models/framework_models/common/FilterConfiguration.java:254-260 | The record is not selected afterwards |
| `FilterTables.FilterTable.GetById` | app/models/framework_models/common/FilterConfiguration.java:190-192 | The live record of the id, read into a new object |
| `FilterTables.FilterTable.GetSelectedFilterConfiguration` | app/models/framework_models/common/FilterConfiguration.java:203-211 | The live selected filter of the user and data type, else the default; more than one is an error |
| `FilterTables.FilterTable.GetDefaultFilterConfiguration` | app/models/framework_models/common/FilterConfiguration.java:221-223 | The live default filter; more than one is an error |
| `FilterTables.FilterTable.GetFilterConfigurationBySharedKey` | app/models/framework_models/common/FilterConfiguration.java:235-237 | The filter with the key, deleted or not |
| `FilterActions.FilterConfigController.FilterConfigurationCreate` | app/framework/utils/FilterConfigController.java:69-113 | For all stores and both save policies: the selection is cleared, and the default's content becomes a new selected filter; an error without a default |
| `FilterActions.FilterConfigController.FilterConfigurationSave` | app/framework/utils/FilterConfigController.java:122-149 | The filter takes over the default's content; another user's filter and the default itself are forbidden |
| `FilterActions.FilterConfigController.FilterConfigurationClear` | app/framework/utils/FilterConfigController.java:155-169 | The selection is cleared and the default deleted; without any filter it throws |
| `FilterActions.FilterConfigController.FilterConfigurationChange` | app/framework/utils/FilterConfigController.java:180-221 | The old selection is cleared, the new one set and its content put in the default; the record written is the one read before the clearing, so that a stale one ends the action with an error |
| `FilterActions.FilterConfigController.FilterConfigurationEdit` | app/framework/utils/FilterConfigController.java:226-253 | Only the filter's name changes; another user's filter and the default are forbidden |
| `FilterActions.FilterConfigController.FilterConfigurationDelete` | app/framework/utils/FilterConfigController.java:260-287 | The filter is marked deleted; without a default filter the answer is an error all the same |
| `FilterLoads.GetCurrent` | app/framework/utils/FilterConfig.java:243-401 | For all stores, with and without a shared key: what is stored, what is given, which filter is shown and which warnings are set; never null |
| `FilterLoads.BuiltTemplateIsUsableIff` | app/framework/utils/FilterConfig.java:500-507 | A template that was only given columns prints and reads itself, as loading needs it, if and only if its default dates are not null and can be read |
| `FilterLoads.EnsureDefault` | app/framework/utils/FilterConfig.java:255-265 | A user without a default filter gets one that holds the printed template |
| `FilterLoads.LoadSharedFilter` | app/framework/utils/FilterConfig.java:284-343 | A live shared filter is copied into the default and the selection cleared; the template is given, and not stored, where the content does not fit |
| `FilterLoads.LoadDefaultFilter` | app/framework/utils/FilterConfig.java:345-401 | What the default filter holds is given with the selected filter; where it does not fit, the template is stored and given with the default filter |
| `FilterLoads.PersistCurrentInDefault` | app/framework/utils/FilterConfig.java:418-462 | The page's document is stored if it parses and given as a configuration; else the template is stored and the answer is null |
| `FilterStoreLaws.StepKeepsInv` | app/framework/utils/FilterConfigController.java:69-287 | Each action of any user keeps at most one default and one selected filter for each user and data type, no selected default, and no selection without a default |
| `FilterStoreLaws.RunKeepsInv` | app/framework/utils/FilterConfigController.java:69-287 | So does every run |
| `FilterStoreLaws.StepOnlyTouchesOwn` | app/framework/utils/FilterConfigController.java:69-287 | An action changes no filter of another user and takes none away |
| `FilterStoreLaws.OthersCannotTouch` | app/framework/utils/FilterConfigController.java:69-287 | Whatever run of actions other users perform, a user's filter stays as it is |
| `FilterStoreLaws.FailsIff` | app/framework/utils/FilterConfigController.java:69-287 | When exactly each action fails, and that a failure changes nothing but in three named cases |
| `FilterStoreLaws.ForbiddenIff` | app/framework/utils/FilterConfigController.java:122-287 | An action is forbidden exactly for a live filter of another user, or for the default filter unless it is only changed to |
| `SavedFilters.StepHolds` | app/framework/utils/FilterConfigController.java:122-149 | Only saving or deleting a named filter changes what it holds or takes it away |
| `SavedFilters.SavedFilterSurvives` | app/framework/utils/FilterConfigController.java:122-221 | After saving, and any run that does not save or delete the filter, changing to it puts what was saved in the default filter and selects it alone, if and only if it was not selected already; what happens otherwise under both save policies |
| `SavedFilters.ChangedTo` | app/framework/utils/FilterConfigController.java:180-221 | Changing to a filter selects it and only it, unless it was selected: then nothing is selected, and the default takes its content where changed fields are saved, or the answer is an error and the default stays where whole records are |
| `SavedFilters.CreatedThenChangedTo` | app/framework/utils/FilterConfigController.java:69-221 | Changing to a filter right after creating it leaves nothing selected, under both save policies |
| `SavedFilters.ChangedToDefault` | app/framework/utils/FilterConfigController.java:180-221 | Changing to the default filter deselects every other and keeps what it holds |
| `SavedFilters.FirstLoadMakesDefault` | app/framework/utils/FilterConfig.java:255-265 | A user without a default filter gets one that holds the printed template, named as such and not selected, and no other filter changes |
| `SavedFilters.LoadHeals` | app/framework/utils/FilterConfig.java:243-401 | For every request without a shared key or with one that no filter has: loading always gives a configuration; afterwards what is stored fits, and the same load gives the same with no fallback |
| `SavedFilters.LoadShows` | app/framework/utils/FilterConfig.java:345-401 | A load shows the selected filter or, without one, the default filter, with what the default filter holds; the template and the default filter where that does not fit |
| `SavedFilters.PersistHeals` | app/framework/utils/FilterConfig.java:418-462 | After storing the page's document the stored one fits, whatever was sent |
| `SavedFilters.SharedLoad` | app/framework/utils/FilterConfig.java:284-343 | A live shared filter replaces the default filter's content and clears the selection; one that does not fit is passed over but stays stored |
| `SavedFilters.DeletedSharedLoad` | app/framework/utils/FilterConfig.java:284-343 | The key of a deleted filter shows what the default filter holds, with a warning, and changes nothing; what does not fit is passed over for the template |
| `SavedFilters.CreatedIsSelected` | app/framework/utils/FilterConfigController.java:69-113 | A new filter is the only selected one, and the default filter stays |
| `SavedFilters.CreatedHolds` | app/framework/utils/FilterConfigController.java:69-113 | It holds what the default filter held, under the given name and key, and is the user's own |
| `SavedFilters.CreatedFilterSurvives` | app/framework/utils/FilterConfigController.java:69-221 | After creating, and any run that does not save or delete the filter, changing to it puts what it was created with in the default filter, if it is not selected; what happens otherwise |
| `SavedFilters.EditedIsRenamed` | app/framework/utils/FilterConfigController.java:226-253 | Editing gives the filter its new name and changes nothing else of any filter |
| `SavedFilters.ClearStartsOver` | app/framework/utils/FilterConfigController.java:155-169 | After clearing, the next load gives the template with nothing selected |
| `SavedFilters.DeletedFallsBack` | app/framework/utils/FilterConfigController.java:260-287 | A deleted filter is not live, and if it was selected the default filter takes its place; the default filter is rendered |
| `SavedFilters.SeenAgain` | app/framework/utils/FilterConfig.java:418-462 | What a user's page stored and the user saved in a filter is what a load shows after changing back to it, whatever happened between; only a change that is refused leaves the page as it was |
| `Sorting.StableSortSorts` | app/framework/utils/Pagination.java:228-247 | The sort used for a comparator orders the rows, keeps their multiplicity, and keeps ties in their order |
| `PostQueries.ApplyFilters` | app/framework/utils/Pagination.java:251-257 | Filters applied one after the other keep the rows that pass all, in order |
| `PostQueries.PostQueryFilterConfig.UpdateWithSearchExpression` | app/framework/utils/PostQueryFilterConfig.java:60-81 | The expressions and the predicates handed out keep exactly what the columns ask for: no filtered column is lost or sent to the wrong side |
| `PostQueries.PostQueryFilterConfig.UpdateWithSortExpression` | app/framework/utils/PostQueryFilterConfig.java:84-104 | One post-query column that asks for an order imposes it, the others add all their terms; with none, the order stays |
| `PostQueries.PostQueryFilterConfig.GetSize` | app/framework/utils/PostQueryFilterConfig.java:44-57 | The number of rows found that pass every predicate |
| `PostQueries.PostQueryFilterConfig.GetPredicate` | app/framework/utils/PostQueryFilterConfig.java:135-138 | The column's own filter object, set to the column's value |
| `Paginations.PagesHoldTheRows` | app/framework/utils/Pagination.java:165-170 | The number of pages is the least that holds all rows |
| `Paginations.PagesAreTheWhole` | app/framework/utils/Pagination.java:223-249 | The pages, one after the other, are the whole list |
| `Paginations.PagesAreFull` | app/framework/utils/Pagination.java:223-249 | Every page but the last is full and none is empty |
| `Paginations.WindowShape` | app/framework/utils/Pagination.java:178-210 | The window lies within the pages, contains the current page, and has as many links as asked for or as there are pages |
| `Paginations.MoreIsWrongOnTheLastPageIff` | app/framework/utils/Pagination.java:198-207 | When exactly "more" is announced although no page lies beyond the window |
| `Paginations.Pagination.ComputeNumberOfPages` | app/framework/utils/Pagination.java:165-170 | The quotient, rounded up |
| `Paginations.Pagination.SetCurrentPage` | app/framework/utils/Pagination.java:178-210 | A page out of range becomes the first; the bounds are the clipped window; the flags are only ever cleared, and "less" implies pages before the window |
| `Paginations.Pagination.GetListOfObjects` | app/framework/utils/Pagination.java:223-249 | The current page of the filtered and sorted whole, whether the database or the memory cuts it; when exactly the slice is out of range |
| `Paginations.Pagination.CurrentPageExists` | app/framework/utils/Pagination.java:223-249 | It never is when the row count is that of the whole list |
| `Paginations.Pagination.GetEntriesForCurrentPage` | app/framework/utils/Pagination.java:263-270 | The current page of the given entries; when exactly it throws |
| `Listings.CountIgnoresOrder` | app/framework/utils/PostQueryFilterConfig.java:44-57 | Rows may be counted before the order is known |
| `Listings.WholeHasWhatPasses` | app/framework/utils/Pagination.java:223-257 | The whole list has each stored row that passes the query and the predicates, as often as it is stored, in the comparator's order |
| `Listings.PagesShowWhatPasses` | app/framework/utils/PostQueryFilterConfig.java:44-104 | Counted by the configuration and cut by the pagination, all pages together show exactly the rows that the query's own expressions and every filtered column let through, and every page but the last is full |
| `Listings.WantedIsMeant` | app/framework/utils/PostQueryFilterConfig.java:60-81 | For faithful values these rows are those that every filtered column, in the database or in memory, is meant to keep |
| `Listings.AllPages` | app/framework/utils/Pagination.java:178-249 | Setting each page and getting its rows, one page after the other, gives the whole list and never an exception |
| `Listings.ListRows` | app/framework/utils/PostQueryFilterConfig.java:44-104 | From the configuration over the query, the row count and the pages: the rows returned are those that the query's own expressions and every filtered column let through, as often as they are stored, in the order of the imposed comparator or else as the database orders them by the columns' terms |
| `Listings.ListAfterClicks` | public/framework/javascripts/main.js:475-508 | After any run of clicks on the headers the rows come in the order of the column clicked last, ascending after an odd number of clicks in a row: by its comparator, or by its values or labels in a database that honours its terms |
| `SortClicks.Page.Click` | public/framework/javascripts/main.js:475-508 | The clicked column toggles, all other sortable columns stop sorting, columns that cannot be sorted stay so |
| `SortClicks.LastClickedIsTheOnlyOne` | public/framework/javascripts/main.js:475-508 | After any run of clicks the last clicked column and no other is ascending or descending |
| `SortClicks.ClicksAlternate` | public/framework/javascripts/main.js:482-492 | An odd number of clicks in a row sorts ascending, an even number descending |
| `SortClicks.DirectionAfterClicks` | public/framework/javascripts/main.js:482-492 | The last clicked column is ascending after an odd number of clicks in a row on it, the other way round only if it was ascending from the start |
| `SortClicks.OrderByOneColumn` | app/framework/utils/PostQueryFilterConfig.java:84-104 | A configuration that such clicks produced orders by that one column, in the database or in memory, in whatever order the columns are visited |
| `WorkingDays.GetDuration` | app/framework/utils/Utilities.java:663-673 | The number of days touched, in either order of the dates; -1 for a missing one |
| `WorkingDays.DaysCover` | app/framework/utils/Utilities.java:663-673 | So many days from the start on cover the end, and one less does not |
| `WorkingDays.GetWorkingDaysCount` | app/framework/utils/Utilities.java:614-654 | For dates in order the closed form is the day-by-day count; a missing end gives -1, or 0 on a Sunday |
| `WorkingDays.WeekdayOfDay` | app/framework/utils/Utilities.java:614-654 | The weekday is that of the calendar: day 0 is a Thursday, all instants of a day share it, and the next day has the next one |
| `WorkingDays.Bounds` | app/framework/utils/Utilities.java:614-654 | The count lies between none and all of the days |
| `WorkingDays.AWeekAddsFive` | app/framework/utils/Utilities.java:614-654 | A week more is five working days more |
| `WorkingDays.PartsAddUp` | app/framework/utils/Utilities.java:614-654 | A period cut between two of its days counts as its parts |
| `Escapes.EscapifyStr` | app/framework/utils/PropertiesLoader.java:67-86 | The result is the text with each unit above 0x7E escaped |
| `Escapes.EscapedIsAscii` | app/framework/utils/PropertiesLoader.java:67-86 | The result has no unit above 0x7E, so a single-byte encoding loses nothing |
| `Escapes.AsciiStays` | app/framework/utils/PropertiesLoader.java:67-86 | A text without units above 0x7E stays as it is |
| `Escapes.ReaderConventions` | app/framework/utils/PropertiesLoader.java:50-58 | How the reader of properties takes a backslash before a letter, and digits of either case |
| `Escapes.GroupReadsBack` | app/framework/utils/PropertiesLoader.java:59-65 | The four digits of a unit read back as that unit |
| `Escapes.ReadsBackIff` | app/framework/utils/PropertiesLoader.java:50-86 | Reading the escaped text gives the text back if and only if it has no backslash |

## Left out

- Menus: labels, icons, selection flags and the sorted view of an item's list, `removeSubMenuItems` of a header item, null uuids, and synchronisation.
- `AccountManager.Manager.CreateNewUserAccount`: the random password is a parameter, passwords are kept as given and not ciphered, and the back-end may refuse for its own reasons (a mail in use) like for any failing call.
- Accounts: lookups by mail, by name and by numeric id, invalidating the whole cache, validation keys, and callers that alter a cached account object.
- Accounts: reading a store and committing are taken not to fail, and nothing runs between a commit and the cache invalidation of another request.
- Accounts: logins. The light back-end records the last login, counts failed passwords and deactivates an account without telling the manager, so a cached account shows neither until its entry goes.
- Users' uids are taken in canonical case, so that `equalsIgnoreCase` is equality.
- `FilterViews.Parse`: printing and reading JSON text are taken as inverse, so a stored text is always JSON; documents are trees whose numbers are integers.
- `FilterComponents.ValueRoundTrip`: date texts, the reading of number texts and the current time are parameters, and nothing is assumed of them; the texts in a selection list are not null.
- `SearchExpressions.CompiledMeansMeant`: collation and case-insensitivity of the database, time zones and daylight saving, and the raw SQL of custom attributes and KPIs.
- `FilterConfigs.FilterConfig.UpdateWithSortExpression`: the label of a value in the user's language, which is raw SQL, is one kind of term.
- `FilterConfigs.FilterConfig.UpdateWithSearchExpression`: a filtered column whose value has the wrong kind, or a null comparator or date, makes the code throw half-way; such configurations, and a null number to compare with, are excluded.
- `FilterConfigs.FilterConfig.Marshall`: the static description of a selectable column is taken as given JSON; it is never read back.
- `FilterTables.FilterConfiguration.Save`: which of the two ways the persistence layer writes a record is a parameter; the version is a number, where the code has a time stamp that two saves in one millisecond could share.
- `FilterLoads.GetCurrent`: the template prints and its own text parses (for a template that was only given columns `FilterLoads.BuiltTemplateIsUsableIff` says when); one that does not makes the code throw or give null.
- Stored filters: the share action, which sends a notification and changes no filter, the listing of available filters, and deletion along with a principal.
- Stored filters: shared keys are given; that random keys differ is not claimed, and an ambiguous key is an error.
- `PostQueries.PostQueryFilterConfig.UpdateWithSearchExpression`: one filter object shared by several columns or by several configurations at once.
- `PostQueries.PostQueryFilterConfig.UpdateWithSortExpression`: which of several post-query columns imposes its order is left open, as the code leaves it to a hash map.
- `Paginations.Pagination.GetListOfObjects`: rows do not change between counting and listing, the database breaks ties alike in the queries of separate pages, the predicates are a list of their own, and page arithmetic does not overflow; page sizes are positive.
- `WorkingDays.GetWorkingDaysCount`: nothing is claimed for reversed dates, where the weekday is read before the dates are swapped, nor beyond 31 bits of days; the time zone is a fixed offset.
- `Escapes.ReadsBackIff`: the line structure of a properties file (keys, separators, comments, continued lines); reading is that of the escapes within one value.
