/** `useSecretsStore`: the store object, whose operations update its fields and write the
    root document to storage (`saveData`). */
module Store {
  import opened Wrappers
  import opened JsonValues
  import opened Model
  import opened Schema
  import opened Strings
  import opened StoreData
  import opened Queries
  import Migration
  import Imports

  class SecretsStore {
    /** `defaultData`, built once when the module loads. */
    const defaults: SecretsData
    var data: SecretsData
    var selectedFolderId: string
    var searchTerm: string
    var selectedTags: seq<string>
    /** What storage holds under the store's key; None when the key is absent or empty. */
    var persisted: Option<JsonText>

    /** The store as created: default data, the placeholder selection, no filters.
        `bootTime` is the clock reading taken when the module loads. */
    constructor (stored: Option<JsonText>, bootTime: string)
      ensures defaults == Migration.DefaultData(bootTime) && data == defaults
      ensures selectedFolderId == Placeholder && searchTerm == [] && selectedTags == []
      ensures persisted == stored
      ensures CurrentExists(data) && SelectionValid(Session(data, selectedFolderId))
    {
      defaults := Migration.DefaultData(bootTime);
      data := Migration.DefaultData(bootTime);
      selectedFolderId := Placeholder;
      searchTerm := [];
      selectedTags := [];
      persisted := stored;
    }

    function State(): Session
      reads this`data, this`selectedFolderId
    {
      Session(data, selectedFolderId)
    }

    /** `setData(data)`. */
    method SetData(d: SecretsData)
      modifies this`data, this`persisted
      ensures data == d && persisted == Saved(d)
    {
      data := d;
      persisted := Saved(d);
    }

    /** `loadData()`; `now` is the clock reading a legacy migration stamps. */
    method LoadData(now: string)
      modifies this`data, this`selectedFolderId, this`persisted
      ensures State() == Load(old(persisted), old(State()), defaults, now)
      ensures persisted == StoredAfterLoad(old(persisted), defaults)
    {
      var r := Load(persisted, State(), defaults, now);
      data := r.data;
      selectedFolderId := r.selectedFolderId;
      persisted := StoredAfterLoad(persisted, defaults);
    }

    /** `saveData()`. */
    method SaveData()
      modifies this`persisted
      ensures persisted == Saved(data)
    {
      persisted := Saved(data);
    }

    /** `refreshData()`. */
    method RefreshData(now: string)
      modifies this`data, this`selectedFolderId, this`persisted
      ensures State() == Load(old(persisted), old(State()), defaults, now)
      ensures persisted == StoredAfterLoad(old(persisted), defaults)
    {
      LoadData(now);
    }

    /** `addProfile(name)`; `profileId` and `folderId` are fresh UUIDs. */
    method AddProfile(name: string, profileId: string, folderId: string, now: string)
      modifies this`data, this`persisted
      ensures data == StoreData.AddProfile(old(data), name, profileId, folderId, now)
      ensures persisted == Saved(data)
    {
      data := StoreData.AddProfile(data, name, profileId, folderId, now);
      SaveData();
    }

    /** `deleteProfile(profileId)`; nothing is written when it refuses. */
    method DeleteProfile(profileId: string)
      modifies this`data, this`selectedFolderId, this`persisted
      ensures State() == StoreData.DeleteProfile(old(State()), profileId)
      ensures |old(data).profiles| <= 1 ==> persisted == old(persisted)
      ensures |old(data).profiles| > 1 ==> persisted == Saved(data)
    {
      if |data.profiles| <= 1 {
        return;
      }
      var r := StoreData.DeleteProfile(State(), profileId);
      data := r.data;
      selectedFolderId := r.selectedFolderId;
      SaveData();
    }

    /** `renameProfile(profileId, newName)`. */
    method RenameProfile(profileId: string, name: string, now: string)
      modifies this`data, this`persisted
      ensures data == StoreData.RenameProfile(old(data), profileId, name, now)
      ensures persisted == Saved(data)
    {
      data := StoreData.RenameProfile(data, profileId, name, now);
      SaveData();
    }

    /** `setCurrentProfile(profileId)`; nothing is written for an unknown id. */
    method SetCurrentProfile(profileId: string)
      modifies this`data, this`selectedFolderId, this`persisted
      ensures State() == StoreData.SetCurrentProfile(old(State()), profileId)
      ensures HasProfile(old(data).profiles, profileId) ==> persisted == Saved(data)
      ensures !HasProfile(old(data).profiles, profileId) ==> persisted == old(persisted)
    {
      var profile := FindProfile(data.profiles, profileId);
      if profile.Some? {
        var r := StoreData.SetCurrentProfile(State(), profileId);
        data := r.data;
        selectedFolderId := r.selectedFolderId;
        SaveData();
      }
    }

    /** `getCurrentProfile()`. */
    function GetCurrentProfile(): (r: Option<Profile>)
      reads this`data
      ensures r == CurrentProfile(data)
    {
      FindProfile(data.profiles, data.currentProfileId)
    }

    /** The document `exportAllProfiles` downloads; it reads back as the store's data. */
    function ExportAllProfiles(): (j: Json)
      reads this`data
      ensures DecodeRoot(j) == Some(data)
    {
      RootRoundTrip(data);
      EncodeRoot(data)
    }

    /** The document `exportCurrentProfile` downloads, if there is a current profile;
        it reads back as that profile. */
    function ExportCurrentProfile(): (r: Option<Json>)
      reads this`data
      ensures r.Some? <==> CurrentExists(data)
      ensures r.Some? ==> DecodeProfile(r.value) == CurrentProfile(data)
    {
      match GetCurrentProfile()
      case None => None
      case Some(p) =>
        ProfileRoundTrip(p);
        Some(EncodeProfile(p))
    }

    /** `addFolder(name)`; `folderId` is a fresh UUID. */
    method AddFolder(name: string, folderId: string, now: string)
      modifies this`data, this`persisted
      ensures data == StoreData.AddFolder(old(data), name, folderId, now)
      ensures persisted == Saved(data)
    {
      data := StoreData.AddFolder(data, name, folderId, now);
      SaveData();
    }

    /** `deleteFolder(folderId)`. */
    method DeleteFolder(folderId: string, now: string)
      modifies this`data, this`selectedFolderId, this`persisted
      ensures State() == StoreData.DeleteFolder(old(State()), folderId, now)
      ensures persisted == Saved(data)
    {
      var r := StoreData.DeleteFolder(State(), folderId, now);
      data := r.data;
      selectedFolderId := r.selectedFolderId;
      SaveData();
    }

    /** `renameFolder(folderId, newName)`. */
    method RenameFolder(folderId: string, name: string, now: string)
      modifies this`data, this`persisted
      ensures data == StoreData.RenameFolder(old(data), folderId, name, now)
      ensures persisted == Saved(data)
    {
      data := StoreData.RenameFolder(data, folderId, name, now);
      SaveData();
    }

    /** `addSecret(folderId, secretData)`; `secretId` is a fresh UUID. */
    method AddSecret(folderId: string, input: SecretInput, secretId: string, now: string)
      modifies this`data, this`persisted
      ensures data == StoreData.AddSecret(old(data), folderId, input, secretId, now)
      ensures persisted == Saved(data)
    {
      data := StoreData.AddSecret(data, folderId, input, secretId, now);
      SaveData();
    }

    /** `updateSecret(folderId, secretId, updates)`. */
    method UpdateSecret(folderId: string, secretId: string, patch: SecretPatch, now: string)
      modifies this`data, this`persisted
      ensures data == StoreData.UpdateSecret(old(data), folderId, secretId, patch, now)
      ensures persisted == Saved(data)
    {
      data := StoreData.UpdateSecret(data, folderId, secretId, patch, now);
      SaveData();
    }

    /** `deleteSecret(folderId, secretId)`. */
    method DeleteSecret(folderId: string, secretId: string, now: string)
      modifies this`data, this`persisted
      ensures data == StoreData.DeleteSecret(old(data), folderId, secretId, now)
      ensures persisted == Saved(data)
    {
      data := StoreData.DeleteSecret(data, folderId, secretId, now);
      SaveData();
    }

    /** `setSelectedFolder(folderId)`: any id is accepted, existing or not. */
    method SetSelectedFolder(folderId: string)
      modifies this`selectedFolderId
      ensures selectedFolderId == folderId
    {
      selectedFolderId := folderId;
    }

    /** `setSearchTerm(term)`. */
    method SetSearchTerm(term: string)
      modifies this`searchTerm
      ensures searchTerm == term
    {
      searchTerm := term;
    }

    /** `setSelectedTags(tags)`. */
    method SetSelectedTags(tags: seq<string>)
      modifies this`selectedTags
      ensures selectedTags == tags
    {
      selectedTags := tags;
    }

    /** `getFilteredSecrets()`. */
    function GetFilteredSecrets(): (r: seq<Secret>)
      reads this
      ensures r == FilteredSecrets(data, selectedFolderId, searchTerm, selectedTags)
    {
      FilteredSecrets(data, selectedFolderId, searchTerm, selectedTags)
    }

    /** `getAllTags()`: collects the tags of every secret of the current profile into a set,
        folder by folder and secret by secret, and returns them sorted. */
    method GetAllTags() returns (tags: seq<string>)
      ensures tags == AllTags(data)
    {
      var current := FindProfile(data.profiles, data.currentProfileId);
      if current.None? {
        return [];
      }
      var folders := current.value.folders;
      var allTags: set<string> := {};
      var j := 0;
      while j < |folders|
        invariant 0 <= j <= |folders|
        invariant allTags == FoldersTags(folders[..j])
      {
        allTags := AddSecretsTags(allTags, folders[j].secrets);
        FoldersTagsSnoc(folders, j);
        j := j + 1;
      }
      assert folders[..j] == folders;
      tags := SortedElements(allTags);
    }

    /** `handleImportAll(data)`: `ok` is false where it throws; storage is written only on success
        and the in-memory data is left as it is. `newId` and `now` are the fresh UUID and clock
        reading of a legacy import. */
    method ImportAll(input: JsonText, newId: string, now: string) returns (ok: bool)
      modifies this`persisted
      ensures ok <==> Imports.ImportAll(input, old(persisted), newId, now).Some?
      ensures ok ==> persisted == Saved(Imports.ImportAll(input, old(persisted), newId, now).value)
      ensures !ok ==> persisted == old(persisted)
    {
      var r := Imports.ImportAll(input, persisted, newId, now);
      ok := r.Some?;
      if ok {
        persisted := Saved(r.value);
      }
    }

    /** `handleImportProfile(data)`: `ok` is false where it throws; storage is written only on success. */
    method ImportProfile(input: JsonText, newId: string, now: string, today: string) returns (ok: bool)
      modifies this`persisted
      ensures ok <==> Imports.ImportProfile(input, old(persisted), newId, now, today).Some?
      ensures ok ==> persisted == Saved(Imports.ImportProfile(input, old(persisted), newId, now, today).value)
      ensures !ok ==> persisted == old(persisted)
    {
      var r := Imports.ImportProfile(input, persisted, newId, now, today);
      ok := r.Some?;
      if ok {
        persisted := Saved(r.value);
      }
    }
  }

  /** `secret.tags.forEach((tag) => allTags.add(tag))`. */
  method AddTags(acc: set<string>, ts: seq<string>) returns (r: set<string>)
    ensures r == acc + TagSet(ts)
  {
    r := acc;
    var m := 0;
    while m < |ts|
      invariant 0 <= m <= |ts|
      invariant r == acc + TagSet(ts[..m])
    {
      r := r + {ts[m]};
      TagSetSnoc(ts, m);
      m := m + 1;
    }
    assert ts[..m] == ts;
  }

  /** `folder.secrets.forEach(...)`, adding each secret's tags. */
  method AddSecretsTags(acc: set<string>, ss: seq<Secret>) returns (r: set<string>)
    ensures r == acc + SecretsTags(ss)
  {
    r := acc;
    var k := 0;
    while k < |ss|
      invariant 0 <= k <= |ss|
      invariant r == acc + SecretsTags(ss[..k])
    {
      r := AddTags(r, ss[k].tags);
      SecretsTagsSnoc(ss, k);
      k := k + 1;
    }
    assert ss[..k] == ss;
  }
}
