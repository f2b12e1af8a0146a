# Key Stash Manager: a Dafny model of its data core

Key Stash Manager is a local secrets manager. It keeps a tree of **profiles**, each holding **folders**, each
holding **secrets** (name, value, tags, description, timestamps). One root document stores the whole tree
together with the id of the current profile, and it is written to browser storage after every change.

This project models the logic that owns that tree:

- **The store** (`useSecretsStore`). It is modelled as the class `Store.SecretsStore`, whose fields are:
  - the root document;
  - the selected folder, the search term and the selected tags;
  - what storage holds.

  Each operation's effect on the root is a function in `StoreData`, and each store method is proved equal to
  that function. The store also covers:
  - `loadData` with `migrateOldData`;
  - the three JSON imports: a full-root import, a legacy folder-bundle import and a single-profile import with
    collision renaming;
  - the two queries, `getFilteredSecrets` and `getAllTags`.
- **The secrets list** (`SecretsList.tsx`):
  - the `.env` text import, with a loop that parses lines and a loop that issues one store call per entry;
  - the `.env` folder export, its round trip back through the import, and handing the secret dialog's
    result to the store;
  - the tag-filter toggle and the value mask.
- **The secret dialog** (`SecretModal.tsx`): the save guard, the comma-separated tag parser, and the prefill
  that joins tags with `", "`, with its round trip.
- **The legacy bundle check** `parseToAppJSON`.
- **The profile dialog** (`ProfileSettingsModal.tsx`): the add, rename and delete guards, and the per-profile
  secret count.

JSON text is modelled as a parsed value or a parse failure. Clock readings, UUIDs and the locale date
string are parameters.

Files (one module each):

| file | contents |
|---|---|
| `wrappers.dfy` | `Option<T>` |
| `json.dfy` | parsed JSON values, property access and JavaScript truthiness |
| `model.dfy` | the entities |
| `seqs.dfy` | `filter`, `findIndex`, subsequence |
| `strings.dfy` | `trim`, `split`, `join`, `toLowerCase`, `includes` and the default `sort` order |
| `schema.dfy` | structural decoders and encoders of the entities |
| `migration.dfy` | `defaultData` and `migrateOldData` |
| `app_json.dfy` | `parseToAppJSON` |
| `store_data.dfy` | every store transition as a function, `loadData`, and mutation sequences |
| `queries.dfy` | `getFilteredSecrets` and `getAllTags` |
| `imports.dfy` | the import helpers |
| `store.dfy` | the store class |
| `env_codec.dfy` | the `.env` line parser and export format |
| `secrets_list.dfy` | the secrets list |
| `secret_form.dfy` | the secret dialog |
| `profile_guards.dfy` | the profile dialog |

## Model

| member | source | states |
|---|---|---|
| Migration.DefaultData | frontend/src/store/secretsStore.ts:178-195 | The default document has exactly one profile, and it is the current one. |
| Migration.MigrateOldData | frontend/src/store/secretsStore.ts:241-262 | Fails exactly for text that is not JSON or is `null`. A document with truthy `profiles` is returned unchanged. A document with neither `profiles` nor `folders` yields the defaults. |
| Migration.MigrateLegacy | frontend/src/store/secretsStore.ts:244-258 | A document with `folders` and no `profiles` becomes one profile with id "default", name "Default" and those folders, and it is current. |
| Migration.DecodeWrappedProfile | frontend/src/store/secretsStore.ts:248-256 | The profile the migration wraps around legacy folders reads back as profile "default", named "Default", holding exactly those folders. |
| Migration.DecodeWrapped | frontend/src/store/secretsStore.ts:246-258 | The migrated legacy document reads back as a root with that single profile, and it is current. |
| Migration.MigrateLegacyBundle | frontend/src/store/secretsStore.ts:244-258 | A legacy `{ folders }` bundle migrates to a single default profile holding exactly its folders. |
| Migration.MigrateSavedRoot | frontend/src/store/secretsStore.ts:260-261 | A saved root document passes through migration unchanged, even with no profiles. |
| Migration.MigrateIdempotent | frontend/src/store/secretsStore.ts:241-262 | Migrating an already migrated document returns it unchanged. |
| Schema.RootRoundTrip | frontend/src/store/secretsStore.ts:310-317 | What `saveData` writes reads back, through the root check, as the same document. |
| Schema.ProfileRoundTrip | frontend/src/store/secretsStore.ts:109-118 | An exported profile reads back, through the profile check, as the same profile. |
| Schema.BundleRoundTrip | frontend/src/store/secretsStore.ts:75-83 | A legacy bundle passes the bundle check and reads back as its folders. |
| Schema.SavedRootIsNoBundle | frontend/src/store/secretsStore.ts:103-107 | A saved root document never passes the legacy bundle check. |
| AppJson.ParseToAppJson | frontend/src/lib/utils.ts:16-26 | The result is null for text that is not JSON. It is also null when `folders` is missing or falsy or an empty array, or when the first folder lacks a truthy `id` or `secrets`. Otherwise it is the parsed document, unchanged. |
| AppJson.OnlyFirstFolderInspected | frontend/src/lib/utils.ts:20-22 | The verdict depends only on the first element of `folders`. |
| AppJson.AcceptsWrittenBundle | frontend/src/lib/utils.ts:19-22 | A bundle the app writes passes when its first folder has a non-empty id. |
| Imports.Backfill | frontend/src/store/secretsStore.ts:39-44 | Every profile keeps its fields; a missing `createdAt` or `updatedAt` becomes `now`. |
| Imports.ImportAllSecrets | frontend/src/store/secretsStore.ts:22-71 | Fails exactly when the input is not a root document or has no profiles. Otherwise it keeps the order, count, ids, names and folders of the profiles and backfills their timestamps. The current id is kept if it exists, else it becomes the first profile's id, and so the current profile exists. |
| Imports.ImportV1 | frontend/src/store/secretsStore.ts:73-101 | Fails exactly when the input is not a bundle or the stored text is not a root document. Otherwise it appends exactly one profile "Imported" with the fresh id and the bundle's folders, keeps every existing profile, and keeps a non-empty current id, else uses the new id. |
| Imports.ImportAll | frontend/src/store/secretsStore.ts:103-107 | The full-root import is tried first and the legacy import only when it fails. The call fails (throws) exactly when both fail. |
| Imports.Incoming | frontend/src/store/secretsStore.ts:138-168 | The imported profile is kept as is without an id or name collision. Otherwise it gets the fresh id and fresh timestamps, plus the " (Imported date)" suffix exactly when its name collides (case-sensitive). Its folders are always kept. |
| Imports.ImportProfile | frontend/src/store/secretsStore.ts:133-176 | Fails when nothing is stored (the root check requires `profiles`), when the input is not a profile, or when the stored text is not a root document. Otherwise it appends exactly one profile (`Incoming`), keeps the existing profiles and the current id, and so keeps an existing current profile existing. |
| Imports.ExportAllImportAll | frontend/src/store/secretsStore.ts:22-47 | Exporting a normalised root and importing the file restores exactly that root. |
| Imports.BundleImportsAsProfile | frontend/src/store/secretsStore.ts:73-107 | A legacy bundle imported over a saved root becomes one more profile "Imported" holding exactly its folders. |
| Imports.ExportProfileImportProfile | frontend/src/store/secretsStore.ts:133-170 | Importing an exported profile appends one profile with exactly its folders and leaves the existing ones untouched. Without a collision, the appended profile is the exported one. |
| Imports.DuplicateNameImport | frontend/src/store/secretsStore.ts:143-164 | Importing a profile whose name is already taken appends exactly one copy, with the fresh id, fresh timestamps and the name suffixed " (Imported date)", and keeps every existing profile. |
| StoreData.FindProfile | frontend/src/store/secretsStore.ts:408-411 | Finds the first profile with the id, or none exactly when no profile has it. |
| StoreData.CurrentProfile | frontend/src/store/secretsStore.ts:408-411 | The current profile exists exactly when some profile carries the current id. |
| StoreData.SelectionInCurrentProfile | frontend/src/store/secretsStore.ts:408-411 | Where profile ids are unique, a valid selection that is not the placeholder is a folder of the profile `getCurrentProfile` returns. |
| StoreData.FirstFolderOr | frontend/src/store/secretsStore.ts:366 | The id of the profile's first folder when there is one and its id is non-empty, else "default". |
| StoreData.AddProfile | frontend/src/store/secretsStore.ts:324-347 | Appends exactly one profile with the given name, the fresh ids and one empty folder "default". Every other profile and the current id are kept. |
| StoreData.DeleteProfile | frontend/src/store/secretsStore.ts:349-377 | Nothing changes with at most one profile. Otherwise it removes exactly the profiles with the id, keeping every other profile, each copy of it and their order. A deleted current profile passes the current id to the first remaining profile and selects that profile's first folder or "default", unless nothing would remain, in which case nothing changes. An existing current profile and a valid selection are preserved. |
| StoreData.RenameProfile | frontend/src/store/secretsStore.ts:379-391 | Exactly the profiles with the id get the new name and `updatedAt`; nothing else changes. |
| StoreData.SetCurrentProfile | frontend/src/store/secretsStore.ts:393-406 | Nothing changes for an unknown id. Otherwise the id becomes current and its first folder or "default" is selected, leaving a valid state. |
| StoreData.AddFolder | frontend/src/store/secretsStore.ts:429-452 | Appends an empty folder with the fresh id to the current profile only and stamps that profile. |
| StoreData.RenameFolder | frontend/src/store/secretsStore.ts:488-506 | Renames exactly the folders with the id in the current profile, and stamps that profile. |
| StoreData.DeleteFolder | frontend/src/store/secretsStore.ts:454-486 | Drops exactly the folders with the id from the current profile, keeping every copy of the others in order; other profiles are unchanged. A deleted selected folder is replaced by the first remaining folder or "default". Validity is preserved. |
| StoreData.NewSecret | frontend/src/store/secretsStore.ts:509-519 | A new secret has the fresh id and `createdAt == updatedAt == now`. |
| StoreData.Merge | frontend/src/store/secretsStore.ts:552-554 | The supplied fields overwrite the secret's and the rest are kept. The id and `createdAt` are kept, and `updatedAt` becomes `now`. |
| StoreData.EditCurrent | frontend/src/store/secretsStore.ts:509-596 | Secret edits change only the addressed folder of the current profile, by the given edits, and stamp that profile. |
| StoreData.EditCurrentStep | frontend/src/store/secretsStore.ts:509-596 | Two successive edit batches equal one batch of both. |
| StoreData.AddSecret | frontend/src/store/secretsStore.ts:509-538 | Appends exactly the new secret to the addressed folder of the current profile and changes nothing else. |
| StoreData.UpdateSecret | frontend/src/store/secretsStore.ts:540-569 | Merges the patch over exactly the secrets with the id in the addressed folder, keeping positions; nothing else changes. |
| StoreData.DeleteSecret | frontend/src/store/secretsStore.ts:571-596 | Removes exactly the secrets with the id from the addressed folder, keeping every copy of the others in order; nothing else changes. |
| StoreData.NormalizeCurrent | frontend/src/store/secretsStore.ts:280-286 | An existing current id is kept. Otherwise it becomes the first profile's id when that is non-empty, else "default"; the profiles are untouched. |
| StoreData.RepairSelection | frontend/src/store/secretsStore.ts:289-300 | The profile is looked up by the stored, un-normalised current id. An existing selected folder is kept. A missing one is replaced by the id of the profile's first folder when it has a folder, and kept otherwise. |
| StoreData.Load | frontend/src/store/secretsStore.ts:275-308 | Nothing changes when nothing is stored. Stored text that yields no root takes the catch path to the defaults. Otherwise the stored profiles are adopted, with the current id repaired by `NormalizeCurrent` and the selection repaired by `RepairSelection` from the stored document. |
| StoreData.StoredAfterLoad | frontend/src/store/secretsStore.ts:277-304 | Storage is written, with the defaults, only when nothing was stored. |
| StoreData.LoadAfterSave | frontend/src/store/secretsStore.ts:275-317 | Loading what was saved restores the saved root; the selection is kept or repaired. |
| StoreData.LoadKeepsStaleSelection | frontend/src/store/secretsStore.ts:289-300 | For every stored document with a stale current id and a non-empty first profile id, loading makes the first profile current and keeps the selection unchecked. When that selection is not the placeholder and no profile with the first profile's id holds it, the loaded state's selection is invalid. |
| StoreData.LoadOfEmptyRoot | frontend/src/store/secretsStore.ts:275-286 | A stored root with no profiles, whatever its current id, loads into a state with no current profile. |
| StoreData.StepKeepsValidity | frontend/src/store/secretsStore.ts:324-596 | Each editing operation keeps the current profile existing and the selection valid. |
| StoreData.RunKeepsValidity | frontend/src/store/secretsStore.ts:324-596 | Any sequence of editing operations from a valid state keeps the current profile existing and the selection valid. |
| Queries.SelectedFolder | frontend/src/components/SecretsList.tsx:85-88 | The folder with the selected id in the current profile, if both exist. |
| Queries.FilteredSecrets | frontend/src/store/secretsStore.ts:610-636 | Empty without a current profile or selected folder. Otherwise an order-preserving subsequence of the folder's secrets holding every copy of those that match the search and carry every selected tag and nothing else, and all of them when both filters are empty. |
| Queries.AllTags | frontend/src/store/secretsStore.ts:638-652 | Strictly sorted and duplicate-free. Exactly the tags of the secrets of the current profile's folders; empty without a current profile. |
| Store.SecretsStore.constructor | frontend/src/store/secretsStore.ts:264-268 | The store starts with the defaults, the placeholder selection and no filters, in a valid state. |
| Store.SecretsStore.SetData | frontend/src/store/secretsStore.ts:270-273 | The data is replaced and saved. |
| Store.SecretsStore.LoadData | frontend/src/store/secretsStore.ts:275-308 | The new state is `Load` of the old storage and state; storage is written only when it was empty. |
| Store.SecretsStore.SaveData | frontend/src/store/secretsStore.ts:310-317 | Storage holds the current data. |
| Store.SecretsStore.RefreshData | frontend/src/store/secretsStore.ts:319-321 | The same as loading. |
| Store.SecretsStore.AddProfile | frontend/src/store/secretsStore.ts:324-347 | The data becomes `StoreData.AddProfile` of the old data, and it is saved. |
| Store.SecretsStore.DeleteProfile | frontend/src/store/secretsStore.ts:349-377 | The state becomes `StoreData.DeleteProfile` of the old state. Storage is written only when more than one profile existed. |
| Store.SecretsStore.RenameProfile | frontend/src/store/secretsStore.ts:379-391 | The data becomes `StoreData.RenameProfile` of the old data, and it is saved. |
| Store.SecretsStore.SetCurrentProfile | frontend/src/store/secretsStore.ts:393-406 | The state becomes `StoreData.SetCurrentProfile` of the old state. Storage is written only for a known id. |
| Store.SecretsStore.GetCurrentProfile | frontend/src/store/secretsStore.ts:408-411 | The current profile of the data. |
| Store.SecretsStore.ExportAllProfiles | frontend/src/store/secretsStore.ts:413-416 | The exported document reads back as the data. |
| Store.SecretsStore.ExportCurrentProfile | frontend/src/store/secretsStore.ts:418-426 | A document is exported exactly when the current profile exists, and it reads back as that profile. |
| Store.SecretsStore.AddFolder | frontend/src/store/secretsStore.ts:429-452 | The data becomes `StoreData.AddFolder` of the old data, and it is saved. |
| Store.SecretsStore.DeleteFolder | frontend/src/store/secretsStore.ts:454-486 | The state becomes `StoreData.DeleteFolder` of the old state, and it is saved. |
| Store.SecretsStore.RenameFolder | frontend/src/store/secretsStore.ts:488-506 | The data becomes `StoreData.RenameFolder` of the old data, and it is saved. |
| Store.SecretsStore.AddSecret | frontend/src/store/secretsStore.ts:509-538 | The data becomes `StoreData.AddSecret` of the old data, and it is saved. |
| Store.SecretsStore.UpdateSecret | frontend/src/store/secretsStore.ts:540-569 | The data becomes `StoreData.UpdateSecret` of the old data, and it is saved. |
| Store.SecretsStore.DeleteSecret | frontend/src/store/secretsStore.ts:571-596 | The data becomes `StoreData.DeleteSecret` of the old data, and it is saved. |
| Store.SecretsStore.SetSelectedFolder | frontend/src/store/secretsStore.ts:598-600 | Any id is selected, whether or not such a folder exists. |
| Store.SecretsStore.SetSearchTerm | frontend/src/store/secretsStore.ts:602-604 | The search term is replaced. |
| Store.SecretsStore.SetSelectedTags | frontend/src/store/secretsStore.ts:606-608 | The selected tags are replaced. |
| Store.SecretsStore.GetFilteredSecrets | frontend/src/store/secretsStore.ts:610-636 | The filtered secrets of the current state. |
| Store.SecretsStore.GetAllTags | frontend/src/store/secretsStore.ts:638-652 | The nested loops collecting into a set return `AllTags` of the data: sorted and exactly the used tags. |
| Store.AddTags | frontend/src/store/secretsStore.ts:648 | The innermost loop adds exactly the secret's tags to the set. |
| Store.AddSecretsTags | frontend/src/store/secretsStore.ts:647-649 | The middle loop adds exactly the tags of the folder's secrets to the set. |
| Store.SecretsStore.ImportAll | frontend/src/store/secretsStore.ts:103-107 | Succeeds exactly when `Imports.ImportAll` does. Storage is replaced only on success, and the in-memory data is untouched. |
| Store.SecretsStore.ImportProfile | frontend/src/store/secretsStore.ts:133-176 | Succeeds exactly when `Imports.ImportProfile` does. Storage is replaced only on success. |
| Strings.Trim | frontend/src/components/SecretsList.tsx:239 | The result has no leading or trailing whitespace and is no longer than the input. |
| Strings.TrimIsSlice | frontend/src/components/SecretsList.tsx:239 | The result is the slice of the input left after removing a whitespace prefix and a whitespace suffix. |
| Strings.TrimEmptyIffAllWhitespace | frontend/src/components/SecretsList.tsx:225 | `trim` yields "" exactly for whitespace-only text. |
| Strings.TrimKeepsOnlyInputChars | frontend/src/components/SecretModal.tsx:45 | `trim` introduces no character. |
| Strings.JoinSplit | frontend/src/components/SecretsList.tsx:235 | Joining the pieces of a split with the separator restores the text. |
| Strings.SplitJoin | frontend/src/components/SecretModal.tsx:32 | Splitting a join whose separator is `sep` plus a padding without `sep` returns the parts, padded after the first. |
| Strings.SortedElements | frontend/src/store/secretsStore.ts:651 | `Array.from(set).sort()` lists exactly the set's elements, in strictly increasing order. |
| EnvCodec.ParseLine | frontend/src/components/SecretsList.tsx:238-249 | A blank line, a `#` line, a line without `=`, one with nothing before the first `=`, or one whose value holds a line terminator yields nothing, and every other line yields an entry. The entry is the trimmed text before the first `=` and the trimmed rest, so its name is non-empty, trimmed and free of `=`. |
| EnvCodec.EnvEntries | frontend/src/components/SecretsList.tsx:235-250 | At most one entry per line. An entry is in the result exactly when some line parses to it; every name is non-empty, trimmed and free of `=`. |
| EnvCodec.ParseEnvText | frontend/src/components/SecretsList.tsx:235-250 | The parsing loop collects exactly `EnvEntries` of the lines of the text. |
| EnvCodec.BlankTextHasNoEntries | frontend/src/components/SecretsList.tsx:225-259 | Whitespace-only text yields no entry, so the blank guard and the empty guard agree. |
| EnvCodec.ParseExportedLine | frontend/src/components/SecretsList.tsx:179-181 | An exported `name=value` line parses back as that name and value, under the export conditions. |
| EnvCodec.ParseExport | frontend/src/components/SecretsList.tsx:179-182 | The exported folder text parses back as exactly the folder's names and values, in order. |
| SecretsList.FindByName | frontend/src/components/SecretsList.tsx:264 | The first secret with the name, or none exactly when no secret has it. |
| SecretsList.ExistingSecrets | frontend/src/components/SecretsList.tsx:262 | The selected folder's secrets before the import, or none without one. |
| SecretsList.EnvOps | frontend/src/components/SecretsList.tsx:263-276 | One store call per entry, in order: an update of the first earlier secret with that name, keeping its tags, or an addition with no tags. |
| SecretsList.ImportEnv | frontend/src/components/SecretsList.tsx:215-289 | No store call exactly when no entry is parsed. Otherwise only the selected folder changes, by the entries' calls in order, and every folder survives. |
| SecretsList.ImportEnvFile | frontend/src/components/SecretsList.tsx:215-289 | Both loops together leave the store as `ImportEnv` gives, saved. The count reported is the number of entries; with no entry nothing changes. |
| SecretsList.MergeEntries | frontend/src/components/SecretsList.tsx:262-277 | The merge loop's store calls amount to the batch of `EnvOps` edits on the selected folder. |
| SecretsList.UpdateKeepsTags | frontend/src/components/SecretsList.tsx:265-269 | Updating from an entry changes only the value (the name already matches) and the update time. |
| SecretsList.NewNamesAppended | frontend/src/components/SecretsList.tsx:270-274 | Entries matching no existing name append one new secret each, in order, duplicates included. |
| SecretsList.ExportFolder | frontend/src/components/SecretsList.tsx:179-182 | The folder's `name=value` lines joined by newlines. |
| SecretsList.ExportThenImport | frontend/src/components/SecretsList.tsx:179-276 | Re-importing an exported folder with unique, exportable names adds no secret. Each secret keeps its name, value, tags and position, and only its update time changes. |
| SecretsList.ReimportMakesUpdates | frontend/src/components/SecretsList.tsx:262-276 | For a folder with unique names, each exported entry finds its own secret, so every store call is an update of that secret with its own value and tags. |
| SecretsList.ReimportPrefix | frontend/src/components/SecretsList.tsx:264-276 | With unique ids, after the first m of those updates, exactly the first m secrets are restamped and the rest are unchanged. |
| SecretsList.Reimport | frontend/src/components/SecretsList.tsx:262-276 | For a folder with unique names and ids, all the updates of a re-import restamp every secret of the folder and change nothing else. |
| SecretsList.HandleSaveSecret | frontend/src/components/SecretsList.tsx:149-159 | The payload updates the edited secret, keeping its description, or is added as a new secret, in the selected folder; the result is saved. |
| SecretsList.RestampOne | frontend/src/components/SecretsList.tsx:149-153 | Updating one secret of a list with unique ids by a patch that only restamps it changes only that secret's update time. |
| SecretsList.ResaveOnlyRestamps | frontend/src/components/SecretsList.tsx:149-159 | Saving the dialog unchanged replaces the edited secret by itself with a new update time. |
| SecretsList.ToggleTag | frontend/src/components/SecretsList.tsx:315-321 | A present tag is removed everywhere, keeping every other tag, each copy and their order. An absent tag is appended. Membership of every other tag is unchanged. |
| SecretsList.ToggleTwice | frontend/src/components/SecretsList.tsx:315-321 | Toggling an absent tag twice restores the list. |
| SecretsList.ToggleOnNarrows | frontend/src/components/SecretsList.tsx:315-321 | After a tag is toggled on, the filtered secrets are exactly the earlier ones that carry it. |
| SecretsList.ToggleTagFilter | frontend/src/components/SecretsList.tsx:315-321 | The store's selected tags become the toggled list. |
| SecretsList.MaskValue | frontend/src/components/SecretsList.tsx:323-325 | Exactly `min(length, 20)` asterisks, where the length counts UTF-16 code units, as `value.length` does. |
| SecretsList.Utf16Length | frontend/src/components/SecretsList.tsx:324 | `value.length` is at least the number of characters and at most twice it, and equals it when no character lies outside the Basic Multilingual Plane. |
| SecretsList.MaskOfAstralCharacter | frontend/src/components/SecretsList.tsx:323-325 | A single character outside the Basic Multilingual Plane masks to two asterisks. |
| SecretsList.MaskShowsOnlyLength | frontend/src/components/SecretsList.tsx:323-325 | Two values mask alike exactly when their UTF-16 lengths capped at 20 agree. |
| SecretForm.Prefill | frontend/src/components/SecretModal.tsx:28-38 | The dialog opens with the secret's name and value and its joined tags, or blank. |
| SecretForm.ParseTags | frontend/src/components/SecretModal.tsx:43-46 | No tag is empty, untrimmed or holds a comma. The tags are the non-empty trimmed comma pieces in their order, each as often as it occurs, and nothing else. |
| SecretForm.HandleSave | frontend/src/components/SecretModal.tsx:40-55 | Refused exactly when the trimmed name or value is empty. Otherwise the payload is exactly the trimmed name, the trimmed value and the parsed tags. |
| SecretForm.ToInput | frontend/src/components/SecretModal.tsx:48-52 | The payload passed to `addSecret` has no description. |
| SecretForm.ToPatch | frontend/src/components/SecretModal.tsx:48-52 | The update overwrites name, value and tags and leaves the description. |
| SecretForm.TrimmedPiecesOfJoin | frontend/src/components/SecretModal.tsx:32-45 | The comma pieces of `tags.join(', ')`, trimmed, are the tags again. |
| SecretForm.PrefillTagsRoundTrip | frontend/src/components/SecretModal.tsx:32-46 | Parsing `tags.join(', ')` returns the tags when each is non-empty, trimmed and comma-free. |
| SecretForm.SaveUnchanged | frontend/src/components/SecretModal.tsx:28-55 | Saving a prefilled secret unchanged hands back its own name, value and tags, so the update only restamps it. |
| ProfileGuards.AddProfileName | frontend/src/components/ProfileSettingsModal.tsx:63-93 | Refused exactly when the trimmed name is empty or equals an existing name, ignoring case. Otherwise `addProfile` receives the trimmed name. |
| ProfileGuards.RenameProfileName | frontend/src/components/ProfileSettingsModal.tsx:119-152 | Refused exactly when the trimmed name is empty or another profile has it, ignoring case. Otherwise `renameProfile` receives the trimmed name. |
| ProfileGuards.AddKeepsNamesDistinct | frontend/src/components/ProfileSettingsModal.tsx:74-86 | Adding through the dialog keeps the profile names distinct, ignoring case. |
| ProfileGuards.RenameKeepsNamesDistinct | frontend/src/components/ProfileSettingsModal.tsx:129-144 | Renaming through the dialog keeps the profile names distinct, ignoring case, given unique ids. |
| ProfileGuards.OwnNameInOtherCase | frontend/src/components/ProfileSettingsModal.tsx:74-86 | Renaming a profile to its own name in another case is accepted, and adding that name is refused. |
| ProfileGuards.DeleteLeavesAProfile | frontend/src/components/ProfileSettingsModal.tsx:95-117 | When the dialog allows a deletion and the current profile exists, a profile remains. |
| ProfileGuards.CountAppend | frontend/src/components/ProfileSettingsModal.tsx:235-238 | The count of concatenated folder lists is the sum of their counts. |
| ProfileGuards.CountSplit | frontend/src/components/ProfileSettingsModal.tsx:368-371 | Each folder contributes exactly its number of secrets to the count. |
| ProfileGuards.CountAfterReplace | frontend/src/components/ProfileSettingsModal.tsx:368-371 | Replacing one folder's secrets changes the count by the difference in their numbers. |
| ProfileGuards.CountAfterNewFolder | frontend/src/components/ProfileSettingsModal.tsx:235-238 | A new, empty folder leaves the count unchanged. |
| ProfileGuards.AddSecretCount | frontend/src/components/ProfileSettingsModal.tsx:368-371 | `addSecret` into a folder of the current profile, whose folder ids are unique, raises its count by one. |

## Left out

- Rendering, dialogs, toasts, `confirm`, the clipboard, the download mechanics of `exportProfile` and
  `exportAllProfiles`, and the sync calls (`saveChangesToServer`, loading indicators): these are UI and
  network I/O. Server synchronisation and `server.js` are not part of this model.
- The schema library's validators are not part of this model; `Schema` states the structural check each
  import relies on. A missing optional string field reads as "", which the core only tests for truthiness.
- `JSON.parse` and `JSON.stringify` are abstracted: text is a parse failure or a parsed value. Numbers are
  integers, because they matter only for truthiness.
- `crypto.randomUUID`, `new Date().toISOString()` and `toLocaleDateString` are parameters. An `.env` import
  uses one clock reading for all its calls, and `freshId(k)` as the UUID of its k-th call.
- Imports.ImportV1: one clock reading `now` stands for the two `new Date().toISOString()` calls of
  secretsStore.ts:86-87, so the model promises `createdAt == updatedAt`, which the source does not when the clock
  ticks between the calls.
- Imports.Incoming: the same single reading for the two calls of secretsStore.ts:160-161; the model promises
  `createdAt == updatedAt` for a renamed copy.
- Imports.Backfill: one reading fills every missing `createdAt` and `updatedAt`, where secretsStore.ts:42-43 reads the
  clock once per missing field; Imports.ImportAllSecrets inherits this.
- Migration.DefaultData: one reading for both stamps of secretsStore.ts:188-189.
- Migration.MigrateOldData: one reading for both stamps of the wrapped profile, secretsStore.ts:250-251; so do
  Migration.MigrateLegacy and Migration.DecodeWrapped.
- StoreData.RenameProfile, StoreData.AddFolder, StoreData.DeleteFolder and StoreData.RenameFolder take one reading
  per call where the source reads the clock inside the `map`, once per matching profile; ids are unique in practice,
  so one profile matches.
- Strings.Lower: does not model Unicode case mapping; only ASCII letters are folded.
- Strings.SortedElements: orders by code point, whereas the default `sort` compares UTF-16 code units. The
  two agree outside the supplementary planes.
- `localStorage` is the store field `persisted`. `None` stands both for a missing key (`null`) and for a stored `""`, which `loadData` and `handleImportV1` treat alike as nothing stored. Storage failures (quota, access) are not modelled.
- `importJSONFile` in `SecretsList.tsx` is only `handleImportAll` followed by `refreshData`, both modelled.
- `ObjectSet.ts` and the legacy and duplicate UI files are not part of this model.
- SecretsList.MergeEntries: requires at least one entry, since it is reached only after the empty-entries
  guard of `importEnvFile`.
- `loadData` applies no schema check after `migrateOldData`. The model reads a migrated document that is
  not a root document as the `catch` path (the defaults), where the code would adopt it as it is.
- `loadData`, `setData` and `setSelectedFolder` can leave `currentProfileId` or `selectedFolderId` naming
  nothing. `StoreData.LoadKeepsStaleSelection` and `StoreData.LoadOfEmptyRoot` state this, so the validity
  invariant is proved for the editing operations only.
- StoreData.Merge: a patch carries only name, value, tags and description, the fields every caller passes;
  a `Partial<Secret>` could also overwrite `id` or `createdAt`, which no caller does.
