# Afilmory dashboard and static-web decisions, modelled in Dafny

Afilmory is a self-hosted photo gallery. Its backend serves two single-page
applications: the public gallery ("web") and the admin dashboard under
`/platform`. This project models the small decision procedures those
pieces are built from:

- **Static web routing** (`StaticWeb`, `StaticDashboard`):
  - which bundle a path belongs to;
  - the rewrite of the legacy `/static/dashboard` prefix;
  - path normalisation and the HTML-route test;
  - the reserved-tenant (403) and missing-tenant (404) ladder in front of the served response;
  - injection of the dashboard basename script into the HTML head.
- **Storage providers** (`ProviderConstants`, `Providers`, `ProviderEdit`):
  - the field tables of the two provider types (S3 and GitHub);
  - coercion of stored JSON into providers and serialisation back;
  - config normalisation;
  - the active-provider id and order;
  - the provider edit form.
- **Photo library and sync panels** (`ConflictsPanel`, `ProgressPanel`, `TagEditor`, `ExifDetails`):
  - conflict ordering, the selection set and its "select all" checkbox;
  - batch and single resolution;
  - sync progress projections;
  - the tag editor's initial tags, path preview and save loop;
  - EXIF key lookup, value formatting and section building.

Every operation is a pure function or a short method over immutable data.
Everything the program takes from outside becomes a parameter:

- the tenant context and the reserved-slug predicate;
- the static asset handler;
- `JSON.parse`, fresh ids, the collator and translations;
- number parsing and formatting.

Shared pieces live in `Common`: the `Option` type, a parsed-JSON datatype,
and string helpers with ASCII case mapping. `Sorting` holds a generic
insertion sort over a total preorder.

## Model

| member | source | states |
|---|---|---|
| StaticDashboard.ScriptTextIsLiteral | be/apps/core/src/modules/infrastructure/static-web/static-dashboard.service.ts:12 | the injected script assigns the JSON string "/platform" to the dashboard basename global |
| StaticDashboard.ScriptText | be/apps/core/src/modules/infrastructure/static-web/static-dashboard.service.ts:61 | the script text assigns to the dashboard basename global and ends in ';' |
| StaticDashboard.JsonEscapePlain | be/apps/core/src/modules/infrastructure/static-web/static-dashboard.service.ts:61 | JSON string escaping leaves text without quotes, backslashes or control characters unchanged |
| StaticDashboard.JsonEscapeNeverShorter | be/apps/core/src/modules/infrastructure/static-web/static-dashboard.service.ts:61 | escaping a string for JSON never makes it shorter |
| StaticDashboard.JsonQuoteDelimited | be/apps/core/src/modules/infrastructure/static-web/static-dashboard.service.ts:61 | `JSON.stringify` of a string starts and ends with a double quote and is at least two characters longer than the string |
| StaticDashboard.JsonQuotePlain | be/apps/core/src/modules/infrastructure/static-web/static-dashboard.service.ts:61 | `JSON.stringify` of text without quotes, backslashes or control characters is that text between double quotes |
| StaticDashboard.RootCandidates | be/apps/core/src/modules/infrastructure/static-web/static-dashboard.service.ts:16-36 | the candidate roots have no duplicates and no empty entry, contain exactly the non-empty resolved paths, and keep them in the order of their first occurrence |
| StaticDashboard.NonEmpty | be/apps/core/src/modules/infrastructure/static-web/static-dashboard.service.ts:16-36 | the filter is a subsequence that keeps every non-empty entry as often as it occurs and drops every empty one |
| StaticDashboard.NonEmptyKeepsOrder | be/apps/core/src/modules/infrastructure/static-web/static-dashboard.service.ts:16-36 | dropping empty entries does not change the relative order of first occurrences of the non-empty ones |
| Common.DedupeKeepsFirstOrder | be/apps/core/src/modules/infrastructure/static-web/static-dashboard.service.ts:16-36 | set-based deduplication lists the distinct entries in the order of their first occurrence |
| StaticDashboard.FirstWithId | be/apps/core/src/modules/infrastructure/static-web/static-dashboard.service.ts:59 | the lookup by id finds the first element carrying the id, and finds nothing only when no element carries it |
| StaticDashboard.SetTextAt | be/apps/core/src/modules/infrastructure/static-web/static-dashboard.service.ts:59-63 | updating the script's text changes that one element and nothing else |
| StaticDashboard.InjectBasenameScript | be/apps/core/src/modules/infrastructure/static-web/static-dashboard.service.ts:53-57 | a document without a head comes back unchanged |
| StaticDashboard.InjectBasenameScriptFacts | be/apps/core/src/modules/infrastructure/static-web/static-dashboard.service.ts:53-70 | with a head, injection leaves exactly one script when there was none, otherwise updates the first one in place without adding another; the first script carries the basename text |
| StaticDashboard.InjectIdempotent | be/apps/core/src/modules/infrastructure/static-web/static-dashboard.service.ts:53-70 | injecting twice gives the same document as injecting once |
| StaticDashboard.InjectOnceFacts | be/apps/core/src/modules/infrastructure/static-web/static-dashboard.service.ts:59-69 | from at most one script, injection yields exactly one script, with the basename text |
| StaticDashboard.InjectTimesLeavesOneScript | be/apps/core/src/modules/infrastructure/static-web/static-dashboard.service.ts:59-69 | after any positive number of injections into a head without the script, exactly one script is present, with the basename text |
| StaticWeb.IsDashboardBasename | be/apps/core/src/modules/infrastructure/static-web/static-web.controller.ts:141-143 | a path is under "/platform" exactly when it starts with it and the next character, if any, is a slash |
| StaticWeb.IsLegacyDashboardPath | be/apps/core/src/modules/infrastructure/static-web/static-web.controller.ts:145-147 | a path is under "/static/dashboard" exactly when it starts with it and the next character, if any, is a slash |
| StaticWeb.BasenameIsNotLegacy | be/apps/core/src/modules/infrastructure/static-web/static-web.controller.ts:138-148 | no path under "/platform" is also under the legacy prefix |
| StaticWeb.ResolveService | be/apps/core/src/modules/infrastructure/static-web/static-web.controller.ts:114-120 | the dashboard bundle is chosen iff the path equals "/platform" or "/static/dashboard", or continues one of them with '/' |
| StaticWeb.PlatformPrefixIsNotDashboard | be/apps/core/src/modules/infrastructure/static-web/static-web.controller.ts:114-148 | "/platformx" goes to the web bundle; "/platform" and a legacy asset path go to the dashboard |
| StaticWeb.NormalizeRequestPath | be/apps/core/src/modules/infrastructure/static-web/static-web.controller.ts:122-136 | the path is kept except for a legacy dashboard path, whose prefix is replaced by "/platform", giving a basename path |
| StaticWeb.DashboardPathsReachBasename | be/apps/core/src/modules/infrastructure/static-web/static-web.controller.ts:114-148 | every path routed to the dashboard is under "/platform" after the rewrite |
| StaticWeb.IsHtmlRoute | be/apps/core/src/modules/infrastructure/static-web/static-web.controller.ts:150-170 | a path is not an HTML route iff its last segment (query cut, trimmed) contains '.' and does not end in ".html"; the empty path and paths ending in '/' are HTML routes |
| StaticWeb.LastSegment | be/apps/core/src/modules/infrastructure/static-web/static-web.controller.ts:150-170 | the segment the HTML test inspects is the text after the last '/' |
| StaticWeb.SegmentWithoutDotIsHtml | be/apps/core/src/modules/infrastructure/static-web/static-web.controller.ts:150-170 | a path whose last segment has no '.' is an HTML route |
| StaticWeb.SegmentWithExtensionIsAsset | be/apps/core/src/modules/infrastructure/static-web/static-web.controller.ts:150-170 | a path whose last segment has a non-".html" extension is not an HTML route |
| StaticWeb.StripTrailingSlashes | be/apps/core/src/modules/infrastructure/static-web/static-web.controller.ts:189-191 | the result is a prefix without a trailing '/', and only slashes were removed |
| StaticWeb.NormalizePathname | be/apps/core/src/modules/infrastructure/static-web/static-web.controller.ts:178-194 | the query is cut and the rest trimmed; an empty or "/" trimmed path gives "/", otherwise the trimmed path with exactly its trailing slashes removed, so it has no '?' and does not end in '/' unless it is "/" |
| StaticWeb.NormalizeTrimmedPath | be/apps/core/src/modules/infrastructure/static-web/static-web.controller.ts:178-194 | a trimmed query-free path is kept, except that a path longer than "/" loses its trailing slashes |
| StaticWeb.DoubleSlashNormalisesToEmpty | be/apps/core/src/modules/infrastructure/static-web/static-web.controller.ts:178-194 | "//" normalises to the empty string, so the result can be empty |
| StaticWeb.NormalizePathnameIgnoresQuery | be/apps/core/src/modules/infrastructure/static-web/static-web.controller.ts:178-194 | appending a query does not change the normalised path |
| StaticWeb.WelcomeWithSlashesNormalises | be/apps/core/src/modules/infrastructure/static-web/static-web.controller.ts:178-194 | "/platform/welcome" followed by any number of slashes normalises to "/platform/welcome" |
| StaticWeb.WelcomeIgnoresSlashesAndQuery | be/apps/core/src/modules/infrastructure/static-web/static-web.controller.ts:172-194 | "/platform/welcome" with any number of trailing slashes, with or without a query, is allowed without a tenant |
| StaticWeb.AllowTenantlessDashboardAccess | be/apps/core/src/modules/infrastructure/static-web/static-web.controller.ts:172-176 | a path is let through without a tenant exactly when, query cut and trimmed, it is the welcome path followed by nothing but slashes (both directions) |
| StaticWeb.IsReservedTenant | be/apps/core/src/modules/infrastructure/static-web/static-web.controller.ts:215-241 | no tenant gives false; the root slug gives the root flag; a placeholder tenant is judged by its lower-cased requested slug, any other tenant by its lower-cased slug, and a missing slug gives false |
| StaticWeb.ResolveRequestHost | be/apps/core/src/modules/infrastructure/static-web/static-web.controller.ts:196-213 | the trimmed forwarded host wins, then the trimmed host header, then the URL's host |
| StaticWeb.TrimOpt | be/apps/core/src/modules/infrastructure/static-web/static-web.controller.ts:197-206 | an optional header is trimmed when present and stays absent otherwise |
| StaticWeb.Serve | be/apps/core/src/modules/infrastructure/static-web/static-web.controller.ts:101-112 | the asset handler's response for the rewritten path is returned, or a 404 "Not Found" (no body for HEAD) when it has none |
| StaticWeb.TenantMissingPage | be/apps/core/src/modules/infrastructure/static-web/static-web.controller.ts:248-255 | the dashboard's tenant-missing entry, when served, is returned with its body and headers and status 404; otherwise a plain 404 "Workspace unavailable" with no headers |
| StaticWeb.TenantRestrictedPage | be/apps/core/src/modules/infrastructure/static-web/static-web.controller.ts:257-264 | the tenant-restricted entry, when served, is returned with its body and headers and status 403; otherwise a plain 403 "Workspace access restricted" with no headers |
| StaticWeb.ShouldRenderTenantMissingPage | be/apps/core/src/modules/infrastructure/static-web/static-web.controller.ts:243-246 | the missing page is skipped exactly for a present, non-placeholder tenant |
| StaticWeb.GetStaticWebRoot | be/apps/core/src/modules/infrastructure/static-web/static-web.controller.ts:23-28 | the root route serves the web bundle with no tenant checks |
| StaticWeb.GetStaticWebIndex | be/apps/core/src/modules/infrastructure/static-web/static-web.controller.ts:30-46 | a reserved tenant (the root tenant included) gets 403 before the missing-tenant 404; otherwise the served page is returned and a 404 from serving becomes the missing page, so every 404 is the missing page |
| StaticWeb.GetStaticPhotoPage | be/apps/core/src/modules/infrastructure/static-web/static-web.controller.ts:48-61 | the same ladder as the index, with the served page decorated for the photo |
| StaticWeb.GetStaticDashboard | be/apps/core/src/modules/infrastructure/static-web/static-web.controller.ts:63-87 | non-HTML paths are served directly; HTML routes get 403 for a reserved non-root tenant, then 404 for a missing tenant unless the path is the welcome page, and are served otherwise |
| StaticWeb.GetAsset | be/apps/core/src/modules/infrastructure/static-web/static-web.controller.ts:89-99 | other paths are served by the bundle the path resolves to, without tenant checks |
| StaticWeb.RootTenantOnlyRestrictedOnPublicPages | be/apps/core/src/modules/infrastructure/static-web/static-web.controller.ts:30-87 | the root tenant is restricted on the public index but never by the dashboard's own check |
| StaticWeb.WelcomeServedWithoutTenant | be/apps/core/src/modules/infrastructure/static-web/static-web.controller.ts:63-87 | with no tenant, the welcome path is served rather than given the missing page |
| StaticWeb.AssetsAreNeverGated | be/apps/core/src/modules/infrastructure/static-web/static-web.controller.ts:63-87 | a non-HTML dashboard path is always served, whatever the tenant |
| ProviderConstants.TypeFromName | be/apps/dashboard/src/modules/storage-providers/constants.ts:8 | a type name is recognised exactly when it is the name of a provider type |
| ProviderConstants.TypeNameRoundTrip | be/apps/dashboard/src/modules/storage-providers/constants.ts:8 | reading a type's name gives the type back |
| ProviderConstants.TypeOptionsMatchTypes | be/apps/dashboard/src/modules/storage-providers/constants.ts:8-16 | the types are [s3, github] and the options list the same values in the same order |
| ProviderConstants.FieldDefinitions | be/apps/dashboard/src/modules/storage-providers/constants.ts:156-259 | every provider type has a non-empty table of field definitions |
| ProviderConstants.FieldKeysMatchTable | be/apps/dashboard/src/modules/storage-providers/constants.ts:156-259 | the field keys of the S3 table and of the GitHub table, in order, are the documented lists |
| ProviderConstants.FieldKeysDistinct | be/apps/dashboard/src/modules/storage-providers/constants.ts:156-259 | field keys are pairwise distinct within each type |
| ProviderConstants.SensitiveAndMultilineFields | be/apps/dashboard/src/modules/storage-providers/constants.ts:160-258 | a field is sensitive iff it is secretAccessKey or token, and multiline iff it is excludeRegex |
| ProviderConstants.PlaceholdersAndDescriptions | be/apps/dashboard/src/modules/storage-providers/constants.ts:160-258 | every field has a placeholder, and only the two S3 key fields lack a description |
| Providers.IsStorageProviderType | be/apps/dashboard/src/modules/storage-providers/utils.ts:13-15 | a value is a provider type iff it is the string name of one |
| Providers.CoerceValue | be/apps/dashboard/src/modules/storage-providers/utils.ts:19-20 | a missing or null value becomes "", a string is kept, and any other value is its `String(...)` text |
| Providers.NormaliseConfigForType | be/apps/dashboard/src/modules/storage-providers/utils.ts:17-23 | the config's keys are exactly the type's field keys, each holding its coerced input value |
| Providers.NormalizeStorageProviderConfig | be/apps/dashboard/src/modules/storage-providers/utils.ts:86-91 | only the config changes: its keys become the type's field keys, known values are kept and missing ones become "" |
| Providers.NormalizeIdempotent | be/apps/dashboard/src/modules/storage-providers/utils.ts:86-91 | normalising twice equals normalising once |
| Providers.NormalizedIsFixedPoint | be/apps/dashboard/src/modules/storage-providers/utils.ts:86-91 | a provider already normalised is left as it is |
| Providers.TrimmedString | be/apps/dashboard/src/modules/storage-providers/utils.ts:40-44 | an id or name is taken only from a non-blank string, trimmed |
| Providers.StringField | be/apps/dashboard/src/modules/storage-providers/utils.ts:49-55 | a timestamp is copied only when it is a string |
| Providers.CoerceProvider | be/apps/dashboard/src/modules/storage-providers/utils.ts:25-58 | only objects give providers; the result is normalised, its id is the fresh id or a trimmed non-empty string, and its name is the untitled label or a trimmed non-empty string |
| Providers.CoerceProviderReadsRecord | be/apps/dashboard/src/modules/storage-providers/utils.ts:25-58 | a valid type name is kept, any other type becomes s3, and the timestamps are copied exactly when they are strings |
| Providers.CoerceAll | be/apps/dashboard/src/modules/storage-providers/utils.ts:71 | coercing an array keeps one provider per object item, all normalised |
| Providers.CoerceAllAt | be/apps/dashboard/src/modules/storage-providers/utils.ts:71 | the object at position i becomes the provider at the position counting the objects before it, coerced with the fresh id of position i |
| Providers.CoerceAllKeepsObjects | be/apps/dashboard/src/modules/storage-providers/utils.ts:71 | an array of objects loses no element |
| Providers.ParseStorageProviders | be/apps/dashboard/src/modules/storage-providers/utils.ts:60-75 | an empty input, a parse failure or a non-array gives []; otherwise one provider per object item of the array |
| Providers.ParseStorageProvidersAt | be/apps/dashboard/src/modules/storage-providers/utils.ts:60-75 | the i-th array item, when an object, is the provider at the position counting the objects before it: the map-then-filter keeps input order |
| Providers.ProviderToJson | be/apps/dashboard/src/modules/storage-providers/utils.ts:79-82 | each provider is written as a JSON object (its fields, with the config normalised for its type) |
| Providers.SerializeStorageProviders | be/apps/dashboard/src/modules/storage-providers/utils.ts:77-84 | one JSON object per provider, in order |
| Providers.ProviderRoundTrip | be/apps/dashboard/src/modules/storage-providers/utils.ts:25-84 | coercing a serialised well-formed provider gives back the provider with its config normalised |
| Providers.ConfigRoundTrip | be/apps/dashboard/src/modules/storage-providers/utils.ts:17-84 | normalising a serialised config over its own keys gives the config back |
| Providers.SerializeRoundTrip | be/apps/dashboard/src/modules/storage-providers/utils.ts:71-84 | coercing the serialised list gives the normalised list back |
| Providers.ParseSerializeRoundTrip | be/apps/dashboard/src/modules/storage-providers/utils.ts:60-84 | parsing the serialised text gives the normalised providers back, in order |
| Providers.GetDefaultConfigForType | be/apps/dashboard/src/modules/storage-providers/utils.ts:93-98 | every field key of the type maps to "", and no other key is present |
| Providers.CreateEmptyProvider | be/apps/dashboard/src/modules/storage-providers/utils.ts:100-111 | id "", the untitled name, the default config, createdAt equal to updatedAt, already normalised |
| Providers.EnsureActiveProviderId | be/apps/dashboard/src/modules/storage-providers/utils.ts:113-119 | the active id is kept iff it is non-empty and some provider has it; otherwise there is none |
| Providers.ActiveFirstIsTotalPreorder | be/apps/dashboard/src/modules/storage-providers/utils.ts:133-139 | the comparator "active first, then by collated name" is a total preorder |
| Providers.DisplayName | be/apps/dashboard/src/modules/storage-providers/utils.ts:135-136 | a provider sorts by its name, or by the untitled label when the name is empty |
| Providers.ActiveFirst | be/apps/dashboard/src/modules/storage-providers/utils.ts:133-138 | the active provider precedes every provider, no other provider precedes it, and two others are ordered by the collator rank of their display names |
| Providers.ReorderProvidersByActive | be/apps/dashboard/src/modules/storage-providers/utils.ts:121-140 | the result is a permutation; without an active id it is the input; with one it is sorted by the comparator, and providers the comparator ties keep their input order |
| Sorting.InsertionSortStable | be/apps/dashboard/src/modules/storage-providers/utils.ts:133-139 | the sort keeps each class of mutually tied elements in input order, as the stable JavaScript array sort does |
| Providers.ActiveProviderComesFirst | be/apps/dashboard/src/modules/storage-providers/utils.ts:121-140 | a present active provider comes first |
| Providers.OthersOrderedByName | be/apps/dashboard/src/modules/storage-providers/utils.ts:133-139 | two non-active providers appear in collation order of their display names |
| ProviderEdit.ProviderKey | be/apps/dashboard/src/modules/storage-providers/components/ProviderEditModal.tsx:49 | the key is the provider's id when it has a non-empty one, and "new" otherwise |
| ProviderEdit.IsNewProvider | be/apps/dashboard/src/modules/storage-providers/components/ProviderEditModal.tsx:56 | a provider without an id is new and keyed "new"; any other is keyed by its id |
| ProviderEdit.Init | be/apps/dashboard/src/modules/storage-providers/components/ProviderEditModal.tsx:50-54 | the form starts from the given provider, not dirty |
| ProviderEdit.PropsChanged | be/apps/dashboard/src/modules/storage-providers/components/ProviderEditModal.tsx:49-54 | a new provider key resets the form; the same key keeps it, edits included |
| ProviderEdit.NameChange | be/apps/dashboard/src/modules/storage-providers/components/ProviderEditModal.tsx:63-67 | only the name changes and the form becomes dirty; without a provider nothing happens |
| ProviderEdit.TypeChange | be/apps/dashboard/src/modules/storage-providers/components/ProviderEditModal.tsx:69-77 | the type is replaced and the config emptied, everything else is kept, and the form becomes dirty |
| ProviderEdit.ConfigChange | be/apps/dashboard/src/modules/storage-providers/components/ProviderEditModal.tsx:79-89 | exactly one config key is set; every other key and field is kept, and the form becomes dirty |
| ProviderEdit.SelectedFields | be/apps/dashboard/src/modules/storage-providers/components/ProviderEditModal.tsx:58-61 | the inputs shown are the field table of the form's current type, none without a provider |
| ProviderEdit.DisplayedValue | be/apps/dashboard/src/modules/storage-providers/components/ProviderEditModal.tsx:182 | a missing config value shows as "" |
| ProviderEdit.Save | be/apps/dashboard/src/modules/storage-providers/components/ProviderEditModal.tsx:91-96 | as written: the form's provider is handed over unchanged and the modal dismissed |
| ProviderEdit.SaveKeepsEmptyId | be/apps/dashboard/src/modules/storage-providers/components/ProviderEditModal.tsx:91-96 | saving a provider from the empty template stores it with the id "" |
| ProviderEdit.SaveWithFreshId | be/apps/dashboard/src/modules/storage-providers/components/ProviderEditModal.tsx:91-96 | corrected: only the id may change, a non-empty id is kept, and the modal is dismissed |
| ProviderEdit.SaveWithFreshIdAssignsId | be/apps/dashboard/src/modules/storage-providers/components/ProviderEditModal.tsx:91-96 | corrected: the saved provider always has a non-empty id |
| ProviderEdit.EditEnablesSave | be/apps/dashboard/src/modules/storage-providers/components/ProviderEditModal.tsx:245-253 | for an existing provider save is disabled until an edit makes the form dirty |
| ProviderEdit.SaveEnabled | be/apps/dashboard/src/modules/storage-providers/components/ProviderEditModal.tsx:233-253 | creating can always be confirmed; editing can be saved exactly when the form is dirty |
| ProviderEdit.ConfigEditIsDisplayed | be/apps/dashboard/src/modules/storage-providers/components/ProviderEditModal.tsx:79-89 | a config edit shows in its input |
| ProviderEdit.TypeChangeClearsInputs | be/apps/dashboard/src/modules/storage-providers/components/ProviderEditModal.tsx:58-77 | after a type change the new type's inputs all show "" |
| ProviderEdit.NewProviderDiscardsEdits | be/apps/dashboard/src/modules/storage-providers/components/ProviderEditModal.tsx:49-54 | switching to another provider discards unsaved edits |
| ConflictsPanel.NewerFirstIsTotalPreorder | be/apps/dashboard/src/modules/photos/components/sync/PhotoSyncConflictsPanel.tsx:186 | the newer-first comparator is a total preorder |
| ConflictsPanel.SortedConflicts | be/apps/dashboard/src/modules/photos/components/sync/PhotoSyncConflictsPanel.tsx:184-187 | no conflicts give []; otherwise a permutation ordered by update time, newest first, in which conflicts with equal times keep their input order |
| ConflictsPanel.IdSet | be/apps/dashboard/src/modules/photos/components/sync/PhotoSyncConflictsPanel.tsx:194 | the id set holds exactly the ids of the listed conflicts |
| ConflictsPanel.PruneSelection | be/apps/dashboard/src/modules/photos/components/sync/PhotoSyncConflictsPanel.tsx:189-219 | the new selection is the old one intersected with the current ids, and the old set is reused iff nothing had to go |
| ConflictsPanel.AllCheckboxState | be/apps/dashboard/src/modules/photos/components/sync/PhotoSyncConflictsPanel.tsx:226-228 | checked iff the list is non-empty and the selection has as many ids as the list; unchecked iff nothing is selected and not checked |
| ConflictsPanel.AllCheckboxStateMeaning | be/apps/dashboard/src/modules/photos/components/sync/PhotoSyncConflictsPanel.tsx:226-228 | for a pruned selection over distinct ids: checked iff every conflict is selected, indeterminate iff some but not all are, unchecked iff none is |
| ConflictsPanel.StaleSelectionMisreports | be/apps/dashboard/src/modules/photos/components/sync/PhotoSyncConflictsPanel.tsx:226-228 | without pruning, one stale id next to one unselected conflict shows the box as checked |
| ConflictsPanel.PruningMakesSelectionValid | be/apps/dashboard/src/modules/photos/components/sync/PhotoSyncConflictsPanel.tsx:189-219 | pruning always leaves a selection within the current ids |
| ConflictsPanel.ToggleSelection | be/apps/dashboard/src/modules/photos/components/sync/PhotoSyncConflictsPanel.tsx:232-244 | one id is added or removed and no other membership changes |
| ConflictsPanel.ToggleAllSelection | be/apps/dashboard/src/modules/photos/components/sync/PhotoSyncConflictsPanel.tsx:246-250 | checking selects every current id; unchecking selects none |
| ConflictsPanel.ClearSelection | be/apps/dashboard/src/modules/photos/components/sync/PhotoSyncConflictsPanel.tsx:252-254 | clearing empties the selection |
| ConflictsPanel.TogglesKeepSelectionValid | be/apps/dashboard/src/modules/photos/components/sync/PhotoSyncConflictsPanel.tsx:232-254 | every toggle of a listed conflict keeps the selection within the current ids |
| ConflictsPanel.SelectAllChecksBox | be/apps/dashboard/src/modules/photos/components/sync/PhotoSyncConflictsPanel.tsx:226-250 | selecting all of a non-empty list shows the box checked |
| ConflictsPanel.ToggleExpand | be/apps/dashboard/src/modules/photos/components/sync/PhotoSyncConflictsPanel.tsx:256-258 | toggling the expanded conflict collapses it; toggling another expands only that one |
| ConflictsPanel.ToggleExpandTwiceCloses | be/apps/dashboard/src/modules/photos/components/sync/PhotoSyncConflictsPanel.tsx:256-258 | expanding and toggling again leaves nothing expanded |
| ConflictsPanel.SelectedConflicts | be/apps/dashboard/src/modules/photos/components/sync/PhotoSyncConflictsPanel.tsx:221-224 | the selected conflicts in display order: a subsequence of the list keeping each selected conflict as often as it occurs and no other |
| ConflictsPanel.FirstFailure | be/apps/dashboard/src/modules/photos/components/sync/PhotoSyncConflictsPanel.tsx:311-313 | every target before the index succeeds and the target at the index fails |
| ConflictsPanel.RunBatchResolve | be/apps/dashboard/src/modules/photos/components/sync/PhotoSyncConflictsPanel.tsx:285-318 | no targets makes no call and shows a notice; a batch handler gets one call; otherwise targets are resolved one at a time in order up to and including the first failure, and the selection is cleared only after all succeed |
| ConflictsPanel.AcceptTargets | be/apps/dashboard/src/modules/photos/components/sync/PhotoSyncConflictsPanel.tsx:356-376 | "all" targets the whole list; "selected" targets exactly the selected conflicts, each as often as it is listed, in display order |
| ConflictsPanel.HandleResolve | be/apps/dashboard/src/modules/photos/components/sync/PhotoSyncConflictsPanel.tsx:378-392 | a successful single resolve removes only that conflict's id; otherwise, or when the id was not selected, the selection is kept |
| ConflictsPanel.ConfirmIdentifier | be/apps/dashboard/src/modules/photos/components/sync/PhotoSyncConflictsPanel.tsx:349 | the confirmation names the photo id, falling back to the conflict id |
| ConflictsPanel.DisplayedStorageKey | be/apps/dashboard/src/modules/photos/components/sync/PhotoSyncConflictsPanel.tsx:492 | the incoming storage key is shown when present, else the conflict's own key |
| ConflictsPanel.OriginalLink | be/apps/dashboard/src/modules/photos/components/sync/PhotoSyncConflictsPanel.tsx:271-282 | the original URL, falling back to the thumbnail URL; nothing when the manifest is missing or the chosen URL is empty |
| ConflictsPanel.ResolvingImpliesProcessing | be/apps/dashboard/src/modules/photos/components/sync/PhotoSyncConflictsPanel.tsx:230 | a conflict being resolved means the panel is processing |
| ConflictsPanel.IsProcessing | be/apps/dashboard/src/modules/photos/components/sync/PhotoSyncConflictsPanel.tsx:230 | the panel is busy iff a non-empty resolving id is set or a batch is running |
| ConflictsPanel.IsResolving | be/apps/dashboard/src/modules/photos/components/sync/PhotoSyncConflictsPanel.tsx:491 | a row is busy during a batch, and otherwise exactly when it is the conflict being resolved |
| ProgressPanel.Ratio | be/apps/dashboard/src/modules/photos/components/sync/PhotoSyncProgressPanel.tsx:196 | at most 1; processed/total capped at 1 when the total is positive; 1 iff completed when it is not |
| ProgressPanel.RatioIsMonotone | be/apps/dashboard/src/modules/photos/components/sync/PhotoSyncProgressPanel.tsx:196 | more progress never lowers the ratio |
| ProgressPanel.StageRow | be/apps/dashboard/src/modules/photos/components/sync/PhotoSyncProgressPanel.tsx:190-206 | a missing stage shows total 0, processed 0, pending, ratio 0; a present one shows its own state |
| ProgressPanel.StageItems | be/apps/dashboard/src/modules/photos/components/sync/PhotoSyncProgressPanel.tsx:190 | one row per stage in the fixed stage order |
| ProgressPanel.StageItemsCoverEveryStageOnce | be/apps/dashboard/src/modules/photos/components/sync/PhotoSyncProgressPanel.tsx:106-111 | the rows are missing-in-db, orphan-in-db, metadata-conflicts, status-reconciliation: every stage exactly once |
| ProgressPanel.SummaryItems | be/apps/dashboard/src/modules/photos/components/sync/PhotoSyncProgressPanel.tsx:208-211 | inserted, updated, conflicts, errors, in that order, each with its label |
| ProgressPanel.RecentLogs | be/apps/dashboard/src/modules/photos/components/sync/PhotoSyncProgressPanel.tsx:214 | the last min(8, n) logs, newest first |
| ProgressPanel.Reverse | be/apps/dashboard/src/modules/photos/components/sync/PhotoSyncProgressPanel.tsx:214 | the reversed list has the same length and the element at i is the one at n-1-i |
| ProgressPanel.NewLogGoesOnTop | be/apps/dashboard/src/modules/photos/components/sync/PhotoSyncProgressPanel.tsx:214 | a new log is shown first and the others move down one place |
| ProgressPanel.HeadingTone | be/apps/dashboard/src/modules/photos/components/sync/PhotoSyncProgressPanel.tsx:177-188 | error iff an error is present, otherwise preview iff dry run, otherwise running |
| ProgressPanel.HeaderKeys | be/apps/dashboard/src/modules/photos/components/sync/PhotoSyncProgressPanel.tsx:177-188 | heading and subtitle follow the tone; the status is "error" iff an error is present |
| ProgressPanel.HeaderPrecedence | be/apps/dashboard/src/modules/photos/components/sync/PhotoSyncProgressPanel.tsx:177-188 | the error status and the preview heading each appear exactly under their precedence condition |
| ProgressPanel.FormatActionLabel | be/apps/dashboard/src/modules/photos/components/sync/PhotoSyncProgressPanel.tsx:166-173 | the label is the action label, extended by " · " and the conflict label exactly for conflict actions carrying a payload |
| ProgressPanel.StringDetail | be/apps/dashboard/src/modules/photos/components/sync/PhotoSyncProgressPanel.tsx:282-313 | a detail field is read only when it is a string |
| ProgressPanel.BoolDetail | be/apps/dashboard/src/modules/photos/components/sync/PhotoSyncProgressPanel.tsx:282-313 | a flag is read only when it is a boolean |
| ProgressPanel.DetailSegments | be/apps/dashboard/src/modules/photos/components/sync/PhotoSyncProgressPanel.tsx:282-313 | at most five segments, in the order id, result, manifest, live photo, error |
| ProgressPanel.DetailSegmentsContents | be/apps/dashboard/src/modules/photos/components/sync/PhotoSyncProgressPanel.tsx:282-313 | each segment appears iff its detail field is present with the right type (and is non-empty for strings) |
| ProgressPanel.NoDetailsNoSegments | be/apps/dashboard/src/modules/photos/components/sync/PhotoSyncProgressPanel.tsx:282-286 | a log without details has no segments |
| TagEditor.FilterShared | be/apps/dashboard/src/modules/photos/components/library/PhotoTagEditorModal.tsx:72 | the kept tags are a subsequence holding each tag every asset carries as often as it occurs, and no other tag |
| TagEditor.InitialTags | be/apps/dashboard/src/modules/photos/components/library/PhotoTagEditorModal.tsx:64-73 | none for no assets, the single asset's tags for one, and for several the subsequence of the first asset's tags holding exactly, with multiplicity, those every asset carries |
| TagEditor.SingleAssetIsIntersection | be/apps/dashboard/src/modules/photos/components/library/PhotoTagEditorModal.tsx:64-73 | for one asset, the shortcut agrees with the intersection rule |
| TagEditor.ArraysEqual | be/apps/dashboard/src/modules/photos/components/library/PhotoTagEditorModal.tsx:57-58 | element-wise array comparison (same length, same tag at every index) holds exactly for equal sequences |
| TagEditor.HasChanges | be/apps/dashboard/src/modules/photos/components/library/PhotoTagEditorModal.tsx:100 | there are changes exactly when the tags differ from the initial ones |
| TagEditor.SaveEnabled | be/apps/dashboard/src/modules/photos/components/library/PhotoTagEditorModal.tsx:101-183 | save is enabled exactly when the tags differ and neither a save nor the mutation is in flight |
| TagEditor.SaveEnabledMeaning | be/apps/dashboard/src/modules/photos/components/library/PhotoTagEditorModal.tsx:100-101 | save is enabled iff the tags differ from the initial ones and nothing is in flight; the initial tags never enable it |
| TagEditor.TagOptions | be/apps/dashboard/src/modules/photos/components/library/PhotoTagEditorModal.tsx:80-83 | one option per tag, labelled as written and valued in lower case |
| TagEditor.OptionValuesAreLowerCase | be/apps/dashboard/src/modules/photos/components/library/PhotoTagEditorModal.tsx:80-83 | lowering an option value again changes nothing |
| TagEditor.FileName | be/apps/dashboard/src/modules/photos/components/library/PhotoTagEditorModal.tsx:84-89 | "" without assets, else the storage key's part after its last '/': a '/'-free suffix preceded by '/', the whole key iff it has no '/' |
| TagEditor.FileNameOfKey | be/apps/dashboard/src/modules/photos/components/library/PhotoTagEditorModal.tsx:84-89 | for a key "dir/name" the file name is name |
| TagEditor.NextPathPreview | be/apps/dashboard/src/modules/photos/components/library/PhotoTagEditorModal.tsx:90-98 | none iff the file name is empty; the bare file name without tags; else exactly the '/'-joined tags, " / ", then the file name |
| TagEditor.PreviewEndsWithFileName | be/apps/dashboard/src/modules/photos/components/library/PhotoTagEditorModal.tsx:90-98 | the preview's last '/'-part is the file name, behind one space when there are tags |
| TagEditor.AssetTitle | be/apps/dashboard/src/modules/photos/components/library/PhotoTagEditorModal.tsx:103-111 | no selection, the single asset's title or photo id, or the asset count |
| TagEditor.UpdatesFor | be/apps/dashboard/src/modules/photos/components/library/PhotoTagEditorModal.tsx:118-120 | one update per asset, in order, all with the same tags |
| TagEditor.Succeeded | be/apps/dashboard/src/modules/photos/components/library/PhotoTagEditorModal.tsx:118-120 | every update before the index succeeds and the one at the index fails |
| TagEditor.HandleSave | be/apps/dashboard/src/modules/photos/components/library/PhotoTagEditorModal.tsx:112-138 | no assets dismisses at once; otherwise updates go out in order up to the first failure, which keeps the dialog open, and full success dismisses it |
| ExifDetails.CandidateKeys | be/apps/dashboard/src/modules/photos/components/library/PhotoExifDetailsModal.tsx:116-125 | the distinct members of [key, lower, upper, lower-first, upper-first], key first, in the order of their first occurrence there |
| ExifDetails.FirstUsable | be/apps/dashboard/src/modules/photos/components/library/PhotoExifDetailsModal.tsx:131-138 | none iff no candidate holds a value other than null or ""; else the value of some candidate, usable |
| ExifDetails.ScanKeys | be/apps/dashboard/src/modules/photos/components/library/PhotoExifDetailsModal.tsx:129-140 | whatever the key-by-key scan finds is usable (neither null nor "") |
| ExifDetails.FirstUsableIsFirst | be/apps/dashboard/src/modules/photos/components/library/PhotoExifDetailsModal.tsx:131-138 | the value found is that of the first usable candidate |
| ExifDetails.FirstUsableAppend | be/apps/dashboard/src/modules/photos/components/library/PhotoExifDetailsModal.tsx:129-140 | scanning two key lists in turn finds a value in the first before looking at the second |
| ExifDetails.GetExifValue | be/apps/dashboard/src/modules/photos/components/library/PhotoExifDetailsModal.tsx:127-141 | no EXIF gives none; anything found is usable |
| ExifDetails.GetExifValueScansInOrder | be/apps/dashboard/src/modules/photos/components/library/PhotoExifDetailsModal.tsx:127-141 | the lookup returns the first usable value over the keys in argument order, each followed by its case variants |
| ExifDetails.FindsLowerCaseVariant | be/apps/dashboard/src/modules/photos/components/library/PhotoExifDetailsModal.tsx:116-141 | a value stored under the lower-case key is found |
| ExifDetails.ApertureText | be/apps/dashboard/src/modules/photos/components/library/PhotoExifDetailsModal.tsx:179-180 | the text gets an "f/" prefix unless it already has one |
| ExifDetails.ReplaceEscapedZero | be/apps/dashboard/src/modules/photos/components/library/PhotoExifDetailsModal.tsx:182 | as written, the pattern removes only a backslash, a character and "0" at the end, so text without a backslash is unchanged |
| ExifDetails.ApertureTextIdempotent | be/apps/dashboard/src/modules/photos/components/library/PhotoExifDetailsModal.tsx:179-180 | prefixing twice equals prefixing once |
| ExifDetails.FormatAperture | be/apps/dashboard/src/modules/photos/components/library/PhotoExifDetailsModal.tsx:174-183 | none iff no value; always starts with "f/"; a non-numeric value is printed and prefixed; a number is printed by `toFixed(1)` unchanged, since the replace pattern needs a backslash |
| ExifDetails.ApertureKeepsPointZero | be/apps/dashboard/src/modules/photos/components/library/PhotoExifDetailsModal.tsx:182 | as written: an aperture of 5 shows as "f/5.0" |
| ExifDetails.FormatApertureStripped | be/apps/dashboard/src/modules/photos/components/library/PhotoExifDetailsModal.tsx:174-183 | corrected: a number's trailing ".0" is dropped, any other text is kept |
| ExifDetails.ApertureStrippedDropsPointZero | be/apps/dashboard/src/modules/photos/components/library/PhotoExifDetailsModal.tsx:182 | corrected: an aperture of 5 shows as "f/5" |
| ExifDetails.ShutterText | be/apps/dashboard/src/modules/photos/components/library/PhotoExifDetailsModal.tsx:170-171 | the text gets an "s" suffix unless it already ends in "s" |
| ExifDetails.ShutterTextIdempotent | be/apps/dashboard/src/modules/photos/components/library/PhotoExifDetailsModal.tsx:170-171 | suffixing twice equals suffixing once |
| ExifDetails.FormatShutterSpeed | be/apps/dashboard/src/modules/photos/components/library/PhotoExifDetailsModal.tsx:160-172 | none iff no value or a falsy one; always ends in "s"; a number of at least 1 is its `toFixed(1)` text plus "s" (the replace pattern never matching), a smaller one "1/<denominator>s"; a string goes through the suffix rule, and any other value is its `String(...)` text through the same rule |
| ExifDetails.FormatFocalLength | be/apps/dashboard/src/modules/photos/components/library/PhotoExifDetailsModal.tsx:193-199 | none iff no value or a falsy non-zero one; text ending in "mm" (any case) is kept; otherwise a parsed number is printed followed by "mm", and unparsable text is shown as it is |
| ExifDetails.FocalLengthUnitIsStable | be/apps/dashboard/src/modules/photos/components/library/PhotoExifDetailsModal.tsx:196 | a focal length already in "mm" is returned unchanged, so formatting its own output changes nothing |
| ExifDetails.ToReadableValue | be/apps/dashboard/src/modules/photos/components/library/PhotoExifDetailsModal.tsx:212-216 | none iff the value is missing or null; arrays are joined with ", "; anything else is printed |
| ExifDetails.ReadableValueExamples | be/apps/dashboard/src/modules/photos/components/library/PhotoExifDetailsModal.tsx:212-216 | a string stays itself; a one-element array prints its element; a null element prints as "" |
| ExifDetails.RatingText | be/apps/dashboard/src/modules/photos/components/library/PhotoExifDetailsModal.tsx:341-345 | stars are shown only for a positive number: as many '★' characters as its whole part |
| ExifDetails.Stars | be/apps/dashboard/src/modules/photos/components/library/PhotoExifDetailsModal.tsx:344 | `repeat` of the star k times: k characters, each '★' |
| ExifDetails.RatingRowVisible | be/apps/dashboard/src/modules/photos/components/library/PhotoExifDetailsModal.tsx:341-345 | the rating row is kept iff the rating is at least 1 |
| ExifDetails.CleanPath | be/apps/dashboard/src/modules/photos/components/library/PhotoExifDetailsModal.tsx:250 | the text before the first '?' or '#' |
| ExifDetails.GetFormatLabel | be/apps/dashboard/src/modules/photos/components/library/PhotoExifDetailsModal.tsx:247-254 | none without a source (the original URL, else the storage key) or without a '.' in its clean path; else the upper-cased ext of a '.'-free ext that ends the clean path after a '.' |
| ExifDetails.FormatLabelOfName | be/apps/dashboard/src/modules/photos/components/library/PhotoExifDetailsModal.tsx:247-254 | an original URL "stem.ext" (stem possibly empty) with any query or fragment gives the upper-cased ext, whatever the storage key |
| ExifDetails.FormatLabelOfKey | be/apps/dashboard/src/modules/photos/components/library/PhotoExifDetailsModal.tsx:247-254 | without an original URL, a storage key "stem.ext" with any query or fragment gives the upper-cased ext |
| ExifDetails.Hemisphere | be/apps/dashboard/src/modules/photos/components/library/PhotoExifDetailsModal.tsx:241-242 | the southern/western letter iff the ref is that letter or its word ("S"/"South", "W"/"West"), else the other letter |
| ExifDetails.ReadGpsFields | be/apps/dashboard/src/modules/photos/components/library/PhotoExifDetailsModal.tsx:222-231 | the six GPS tags are each looked up on their own, and without EXIF data every one is missing |
| ExifDetails.ConvertGps | be/apps/dashboard/src/modules/photos/components/library/PhotoExifDetailsModal.tsx:218-245 | a location iff both coordinates are present and finite; each ends with its hemisphere letter; the altitude is shown iff it parses, below sea level only for that ref |
| ExifDetails.ConvertGpsCoordinates | be/apps/dashboard/src/modules/photos/components/library/PhotoExifDetailsModal.tsx:226-244 | when both coordinates convert, each is its five-decimal text, a degree sign, a space and the hemisphere letter |
| ExifDetails.NoExifNoGps | be/apps/dashboard/src/modules/photos/components/library/PhotoExifDetailsModal.tsx:222-224 | without EXIF data there is no location |
| ExifDetails.VisibleRows | be/apps/dashboard/src/modules/photos/components/library/PhotoExifDetailsModal.tsx:256-389 | the rows with truthy values, each as often as it occurs, in order; rows with falsy values are dropped |
| ExifDetails.LocationRows | be/apps/dashboard/src/modules/photos/components/library/PhotoExifDetailsModal.tsx:360-365 | latitude, longitude and altitude rows holding the reading's values, all empty without a reading |
| ExifDetails.SectionIf | be/apps/dashboard/src/modules/photos/components/library/PhotoExifDetailsModal.tsx:256-389 | a section is emitted iff at least one of its rows has a value, holding the visible rows |
| ExifDetails.FujiRows | be/apps/dashboard/src/modules/photos/components/library/PhotoExifDetailsModal.tsx:370-386 | one row per recipe entry, present iff the recipe is an object |
| ExifDetails.BuildSections | be/apps/dashboard/src/modules/photos/components/library/PhotoExifDetailsModal.tsx:256-389 | sections come in the order basic, capture, metadata, location, fuji, each non-empty with only truthy rows |
| ExifDetails.BuildSectionsByKind | be/apps/dashboard/src/modules/photos/components/library/PhotoExifDetailsModal.tsx:256-389 | a section of each kind appears iff that kind's input rows have a truthy value, and holds exactly those visible rows |
| ExifDetails.LocationSection | be/apps/dashboard/src/modules/photos/components/library/PhotoExifDetailsModal.tsx:218-389 | the location section appears iff there is a GPS reading |
| ExifDetails.FujiSectionNeedsRecipe | be/apps/dashboard/src/modules/photos/components/library/PhotoExifDetailsModal.tsx:370-386 | without a recipe there is no Fuji section |

## Left out

- Tenant context, the reserved-slug predicate, the root slug and the static asset handler are parameters. Their own code is not part of this model.
- The static controller's route decorators and HTTP types are modelled only as a request record and a response record. `Response` and `Headers` objects and `node:path` resolution are left out.
- The static dashboard service's file reading and HTML parsing are left out. The head is an abstract list of elements, and root candidates are given as already-resolved paths.
- `JSON.parse` is an oracle returning a parsed value. `JSON.stringify` is modelled by the JSON value that would be printed. Text escaping is modelled only for the basename script.
- Number-to-string conversion (`String(n)`, `toFixed`, `Math.round`) and number parsing (`Number`, `parseNumber`) are function parameters, because floating point is not modelled.
- The i18n `t()` function and `Intl.Collator` are parameters. The collator is an integer rank on names.
- `crypto.randomUUID`, `nanoid` and `Math.random` are fresh-id parameters.
- Case mapping covers ASCII letters only, and trimming uses a fixed set of white-space characters. Unicode case tables are left out.
- Conflict timestamps are integers. Date parsing, and the NaN order of unparsable dates, are left out.
- React state batching, `startTransition`, effects' timing, toasts, `window.open`, `Prompt`, confirmation dialogs and the conflict panel's empty render are left out. Transitions are sequential functions.
- `handleOpenStorage` and the conflict panel's markup are left out. They hold no logic beyond what is modelled.
- ExifDetails.BuildSections: takes the rows of the basic, capture and metadata sections as inputs. Their values come from `formatFileSize`, `formatExposureCompensation`, date formatting and MB conversion, which are floating-point or Intl formatting.
- Providers.CoerceAll: item i of the array draws the fresh id `freshIds(offset + i)` whether or not it needs one; the source calls `generateId()` only for items without an id, so which fresh values are used is not modelled.
- ExifDetails.FujiRows: the regex that spaces Fuji recipe labels is a label parameter, and a recipe that is not an object gives no rows.
- Providers.ActiveFirst: provider ids are assumed unique. Two providers carrying the active id make the source comparator answer -1 both ways, an inconsistent comparator whose sort order the engine leaves undefined; the model ties them and keeps their input order.
- ExifDetails.RatingText: only numeric ratings are modelled. A string rating's JavaScript comparison against 0 is left out.
- ExifDetails.ConvertGps: reads its fields through a separate lookup, and finiteness is the `toNumber` parameter returning a value.
- ProgressPanel.Ratio: is stated to be at least 0 only for non-negative progress; a negative processed count is passed through as in the source.
- The photo-sync reconciliation engine, the auth buttons, the sign-in panel, the restricted-tenant page, the delete-from-storage option and the module wiring are not part of this model.

## Findings

| source | as written | input that shows it | evidently intended | confidence | as-written member | corrected member |
|---|---|---|---|---|---|---|
| be/apps/dashboard/src/modules/storage-providers/components/ProviderEditModal.tsx:93 | `formData.id ?? nanoid()` replaces only a null or undefined id, but providers always carry a string id and a new one has `''` | saving the form opened on `createEmptyProvider('s3')` keeps the id `''` | a provider without an id (falsy) is given a fresh id | not executed; medium, since a caller may still assign the id | ProviderEdit.Save, ProviderEdit.SaveKeepsEmptyId | ProviderEdit.SaveWithFreshId, ProviderEdit.SaveWithFreshIdAssignsId |
| be/apps/dashboard/src/modules/photos/components/library/PhotoExifDetailsModal.tsx:182 | `replace(/\\.0$/, '')` (also at lines 165 and 189 for the shutter speed and the exposure compensation) matches a backslash, any character and "0" at the end, which `toFixed(1)` never prints | an FNumber of 5 formats as "f/5.0" | a whole-number aperture loses its ".0" ("f/5"), the pattern being `/\.0$/` | not executed; high, the doubled backslash sits in a regular-expression literal | ExifDetails.FormatAperture, ExifDetails.ApertureKeepsPointZero | ExifDetails.FormatApertureStripped, ExifDetails.ApertureStrippedDropsPointZero |
