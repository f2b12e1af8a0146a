/** The secrets list's own logic: the `.env` import (`importEnvFile`), the folder export
    (`onExportFolder`), saving the secret dialog (`handleSaveSecret`), the tag filter toggle (`toggleTagFilter`) and the value mask (`maskValue`). */
module SecretsList {
  import opened Wrappers
  import opened Model
  import opened Seqs
  import opened Strings
  import opened StoreData
  import opened Queries
  import opened EnvCodec
  import SecretForm
  import Store

  // ----- .env import -----

  /** `existingSecrets.find(s => s.name === name)`. */
  function FindByName(ss: seq<Secret>, name: string): (r: Option<Secret>)
    ensures r.None? <==> forall k :: 0 <= k < |ss| ==> ss[k].name != name
    ensures r.Some? ==> exists k :: 0 <= k < |ss| && ss[k] == r.value && ss[k].name == name
                                   && forall j :: 0 <= j < k ==> ss[j].name != name
  {
    var k := FirstIndex(ss, (s: Secret) => s.name == name);
    if k < |ss| then Some(ss[k]) else None
  }

  /** `selectedFolder?.secrets || []`: the secrets the import matches names against, taken once,
      before the first store call. */
  function ExistingSecrets(d: SecretsData, selected: string): (r: seq<Secret>)
    ensures SelectedFolder(d, selected).None? ==> r == []
    ensures SelectedFolder(d, selected).Some? ==> r == SelectedFolder(d, selected).value.secrets
  {
    match SelectedFolder(d, selected)
    case None => []
    case Some(f) => f.secrets
  }

  /** The store call made for one entry: an update of the first secret of that name, with the
      entry's name and value and the secret's own tags, or else the addition of a secret with no
      tags and the fresh id `newId`. */
  function EnvOp(existing: seq<Secret>, e: EnvEntry, newId: string, now: string): SecretOp {
    match FindByName(existing, e.name)
    case Some(x) => Patch(x.id, SecretPatch(Some(e.name), Some(e.value), Some(x.tags), None), now)
    case None => Append(NewSecret(SecretInput(e.name, e.value, [], []), newId, now))
  }

  /** One store call per entry, in order; `freshId(k)` is the UUID an addition for the `k`-th
      entry draws. */
  function EnvOps(existing: seq<Secret>, entries: seq<EnvEntry>, freshId: nat -> string, now: string): (ops: seq<SecretOp>)
    ensures |ops| == |entries|
    ensures forall k :: 0 <= k < |entries| ==> ops[k] == EnvOp(existing, entries[k], freshId(k), now)
  {
    seq(|entries|, k requires 0 <= k < |entries| => EnvOp(existing, entries[k], freshId(k), now))
  }

  /** Two profile lists with the same ids, place by place, have the same `find` result position. */
  lemma SameProfileIds(a: seq<Profile>, b: seq<Profile>, id: string)
    requires |a| == |b| && forall n :: 0 <= n < |a| ==> a[n].id == b[n].id
    ensures ProfileIndex(a, id) == ProfileIndex(b, id)
  {
    ProfileIndexIsFirst(a, id);
    ProfileIndexIsFirst(b, id);
  }

  lemma SameFolderIds(a: seq<Folder>, b: seq<Folder>, id: string)
    requires |a| == |b| && forall n :: 0 <= n < |a| ==> a[n].id == b[n].id
    ensures FolderIndex(a, id) == FolderIndex(b, id)
  {
    FolderIndexIsFirst(a, id);
    FolderIndexIsFirst(b, id);
  }

  /** After a change confined to folder `selected` of the current profile, the selected folder is
      the one it was, with the secrets it now holds. */
  lemma SelectedAfterChange(d: SecretsData, r: SecretsData, selected: string, now: string)
    requires ChangesOnlyFolder(d, r, selected, now) && SelectedFolder(d, selected).Some?
    ensures var i := ProfileIndex(d.profiles, d.currentProfileId);
            var j := FolderIndex(d.profiles[i].folders, selected);
            i < |r.profiles| && j < |r.profiles[i].folders|
            && SelectedFolder(r, selected) == Some(SelectedFolder(d, selected).value.(secrets := r.profiles[i].folders[j].secrets))
  {
    var cur := d.currentProfileId;
    var i := ProfileIndex(d.profiles, cur);
    assert forall n :: 0 <= n < |d.profiles| ==> r.profiles[n].id == d.profiles[n].id;
    SameProfileIds(d.profiles, r.profiles, cur);
    var fs, rfs := d.profiles[i].folders, r.profiles[i].folders;
    assert forall n :: 0 <= n < |fs| ==> rfs[n].id == fs[n].id;
    SameFolderIds(fs, rfs, selected);
  }

  /** The selected folder after a batch of secret edits is the folder it was, with the batch
      applied to its secrets. */
  lemma SelectedAfterEdit(d: SecretsData, selected: string, ops: seq<SecretOp>, now: string)
    requires SelectedFolder(d, selected).Some?
    ensures var f := SelectedFolder(d, selected).value;
            SelectedFolder(EditCurrent(d, selected, ops, now), selected)
            == Some(f.(secrets := ApplyOps(f.secrets, ops)))
  {
    SelectedAfterChange(d, EditCurrent(d, selected, ops, now), selected, now);
  }

  /** `importEnvFile()`: None where it stops before any store call (a blank text, or no entry);
      otherwise the root document after one store call per entry. */
  function ImportEnv(d: SecretsData, selected: string, text: string, freshId: nat -> string, now: string): (r: Option<SecretsData>)
    ensures r.None? <==> EnvEntries(Split(text, '\n')) == []
    ensures r.Some? ==> ChangesOnlyFolder(d, r.value, selected, now) && KeepsFolders(d, r.value)
    ensures r.Some? && SelectedFolder(d, selected).Some? ==>
              var f, entries := SelectedFolder(d, selected).value, EnvEntries(Split(text, '\n'));
              SelectedFolder(r.value, selected)
              == Some(f.(secrets := ApplyOps(f.secrets, EnvOps(f.secrets, entries, freshId, now))))
  {
    var entries := EnvEntries(Split(text, '\n'));
    if Trim(text) == [] then
      BlankTextHasNoEntries(text);
      None
    else if entries == [] then None
    else
      var ops := EnvOps(ExistingSecrets(d, selected), entries, freshId, now);
      var r := EditCurrent(d, selected, ops, now);
      assert SelectedFolder(d, selected).Some? ==>
               SelectedFolder(r, selected) == Some(SelectedFolder(d, selected).value.(secrets := ApplyOps(ExistingSecrets(d, selected), ops))) by {
        if SelectedFolder(d, selected).Some? {
          SelectedAfterEdit(d, selected, ops, now);
        }
      }
      Some(r)
  }

  /** `importEnvFile()` on the store: `count` is the number of entries imported, 0 where the
      import stops before any store call; each entry makes one `updateSecret` or `addSecret` call. */
  method ImportEnvFile(store: Store.SecretsStore, text: string, freshId: nat -> string, now: string) returns (count: nat)
    modifies store`data, store`persisted
    ensures var r := ImportEnv(old(store.data), store.selectedFolderId, text, freshId, now);
            if r.None? then count == 0 && store.data == old(store.data) && store.persisted == old(store.persisted)
            else count == |EnvEntries(Split(text, '\n'))| && store.data == r.value && store.persisted == Saved(store.data)
  {
    if Trim(text) == [] {
      BlankTextHasNoEntries(text);
      return 0;
    }
    var entries := ParseEnvText(text);
    if entries == [] {
      return 0;
    }
    var selected := store.selectedFolderId;
    var existing := ExistingSecrets(store.data, selected);
    MergeEntries(store, selected, existing, entries, freshId, now);
    count := |entries|;
  }

  /** The merge loop of `importEnvFile()`: one `updateSecret` or `addSecret` call per entry,
      matching names against `existing`, the folder's secrets before the first call. */
  method MergeEntries(store: Store.SecretsStore, selected: string, existing: seq<Secret>,
                      entries: seq<EnvEntry>, freshId: nat -> string, now: string)
    requires entries != []
    modifies store`data, store`persisted
    ensures store.data == EditCurrent(old(store.data), selected, EnvOps(existing, entries, freshId, now), now)
    ensures store.persisted == Saved(store.data)
  {
    ghost var d0 := store.data;
    ghost var ops := EnvOps(existing, entries, freshId, now);
    var k := 0;
    while k < |entries|
      invariant 0 <= k <= |entries|
      invariant k == 0 ==> store.data == d0
      invariant k > 0 ==> store.data == EditCurrent(d0, selected, ops[..k], now) && store.persisted == Saved(store.data)
    {
      var e := entries[k];
      var found := FindByName(existing, e.name);
      ghost var before := store.data;
      if found.Some? {
        store.UpdateSecret(selected, found.value.id, SecretPatch(Some(e.name), Some(e.value), Some(found.value.tags), None), now);
      } else {
        store.AddSecret(selected, SecretInput(e.name, e.value, [], []), freshId(k), now);
      }
      EnvCallIsOp(before, selected, existing, e, freshId(k), now);
      ImportStep(d0, selected, ops, k, now);
      k := k + 1;
    }
    assert ops[..k] == ops;
  }

  /** The store call the merge loop makes for entry `e` applies `EnvOp` to the selected folder. */
  lemma EnvCallIsOp(d: SecretsData, selected: string, existing: seq<Secret>, e: EnvEntry, newId: string, now: string)
    ensures var found := FindByName(existing, e.name);
            found.Some? ==> StoreData.UpdateSecret(d, selected, found.value.id, SecretPatch(Some(e.name), Some(e.value), Some(found.value.tags), None), now)
                            == EditCurrent(d, selected, [EnvOp(existing, e, newId, now)], now)
    ensures FindByName(existing, e.name).None? ==> StoreData.AddSecret(d, selected, SecretInput(e.name, e.value, [], []), newId, now)
                                                   == EditCurrent(d, selected, [EnvOp(existing, e, newId, now)], now)
  {
  }

  /** One more store call of the import extends the batch applied so far. */
  lemma ImportStep(d: SecretsData, selected: string, ops: seq<SecretOp>, k: nat, now: string)
    requires k < |ops|
    ensures k == 0 ==> EditCurrent(d, selected, [ops[0]], now) == EditCurrent(d, selected, ops[..1], now)
    ensures k > 0 ==> EditCurrent(EditCurrent(d, selected, ops[..k], now), selected, [ops[k]], now)
                      == EditCurrent(d, selected, ops[..k + 1], now)
  {
    if k == 0 {
      assert ops[..1] == [ops[0]];
    } else {
      EditCurrentStep(d, selected, ops[..k], ops[k], now);
      assert ops[..k] + [ops[k]] == ops[..k + 1];
    }
  }

  /** An entry whose name is already in the folder updates that secret's value and stamp only. */
  lemma UpdateKeepsTags(existing: seq<Secret>, e: EnvEntry, newId: string, now: string)
    requires FindByName(existing, e.name).Some?
    ensures var x := FindByName(existing, e.name).value;
            var op := EnvOp(existing, e, newId, now);
            op.Patch? && op.secretId == x.id
            && Merge(x, op.patch, now) == x.(value := e.value, updatedAt := now)
  {
  }

  /** The secrets the import adds for entries whose names the folder does not have: one per entry,
      in order, so a name repeated in the text is added as many times. */
  function Added(entries: seq<EnvEntry>, freshId: nat -> string, now: string): (r: seq<Secret>)
    ensures |r| == |entries|
    ensures forall k :: 0 <= k < |entries| ==>
              r[k].name == entries[k].name && r[k].value == entries[k].value && r[k].tags == []
              && r[k].id == freshId(k) && r[k].createdAt == r[k].updatedAt == now
  {
    var r := seq(|entries|, k requires 0 <= k < |entries| =>
      NewSecret(SecretInput(entries[k].name, entries[k].value, [], []), freshId(k), now));
    assert forall k :: 0 <= k < |entries| ==>
      r[k] == Secret(freshId(k), entries[k].name, entries[k].value, [], [], now, now);
    r
  }

  /** When no entry's name is in the folder, the import appends one new secret per entry. */
  lemma {:induction false} NewNamesAppended(existing: seq<Secret>, entries: seq<EnvEntry>, freshId: nat -> string, now: string)
    requires forall k :: 0 <= k < |entries| ==> FindByName(existing, entries[k].name).None?
    ensures ApplyOps(existing, EnvOps(existing, entries, freshId, now)) == existing + Added(entries, freshId, now)
  {
    if entries != [] {
      var n := |entries| - 1;
      var init := entries[..n];
      NewNamesAppended(existing, init, freshId, now);
      var ops := EnvOps(existing, entries, freshId, now);
      EnvOpsSnoc(existing, entries, freshId, now);
      ApplyOpsSnoc(existing, EnvOps(existing, init, freshId, now), ops[n]);
      AddedSnoc(entries, freshId, now);
    }
  }

  /** The store calls for all entries are those for all but the last, then the last one's. */
  lemma EnvOpsSnoc(existing: seq<Secret>, entries: seq<EnvEntry>, freshId: nat -> string, now: string)
    requires entries != []
    ensures var n := |entries| - 1;
            EnvOps(existing, entries, freshId, now)
            == EnvOps(existing, entries[..n], freshId, now) + [EnvOp(existing, entries[n], freshId(n), now)]
  {
    var n := |entries| - 1;
    assert EnvOps(existing, entries, freshId, now)[..n] == EnvOps(existing, entries[..n], freshId, now);
  }

  /** The secrets added for all entries are those for all but the last, then the last one's. */
  lemma AddedSnoc(entries: seq<EnvEntry>, freshId: nat -> string, now: string)
    requires entries != []
    ensures var n := |entries| - 1;
            Added(entries, freshId, now)
            == Added(entries[..n], freshId, now) + [NewSecret(SecretInput(entries[n].name, entries[n].value, [], []), freshId(n), now)]
  {
  }

  // ----- .env export -----

  /** `onExportFolder()`: the `.env` text of the selected folder, None when no folder is selected. */
  function ExportFolder(d: SecretsData, selected: string): (r: Option<string>)
    ensures r.None? <==> SelectedFolder(d, selected).None?
    ensures r.Some? ==> r.value == ExportEnv(SelectedFolder(d, selected).value.secrets)
  {
    match SelectedFolder(d, selected)
    case None => None
    case Some(f) => Some(ExportEnv(f.secrets))
  }

  predicate UniqueNames(ss: seq<Secret>) {
    forall i, j :: 0 <= i < j < |ss| ==> ss[i].name != ss[j].name
  }

  predicate UniqueIds(ss: seq<Secret>) {
    forall i, j :: 0 <= i < j < |ss| ==> ss[i].id != ss[j].id
  }

  /** Each secret with its update time set to `now`. */
  function Stamped(ss: seq<Secret>, now: string): (r: seq<Secret>)
    ensures |r| == |ss| && forall k :: 0 <= k < |ss| ==> r[k] == ss[k].(updatedAt := now)
  {
    seq(|ss|, k requires 0 <= k < |ss| => ss[k].(updatedAt := now))
  }

  lemma FindOwnName(ss: seq<Secret>, k: nat)
    requires k < |ss| && UniqueNames(ss)
    ensures FindByName(ss, ss[k].name) == Some(ss[k])
  {
  }

  /** The first `m` secrets stamped `now`, the rest as they were. */
  function StampedPrefix(ss: seq<Secret>, now: string, m: nat): (r: seq<Secret>)
    ensures |r| == |ss|
    ensures forall k :: 0 <= k < |ss| ==> r[k] == if k < m then ss[k].(updatedAt := now) else ss[k]
  {
    seq(|ss|, k requires 0 <= k < |ss| => if k < m then ss[k].(updatedAt := now) else ss[k])
  }

  lemma StampedPrefixAll(ss: seq<Secret>, now: string)
    ensures StampedPrefix(ss, now, |ss|) == Stamped(ss, now)
  {
  }

  lemma TakeSnoc<T>(xs: seq<T>, m: nat)
    requires m < |xs|
    ensures xs[..m] + [xs[m]] == xs[..m + 1]
  {
  }

  lemma TakeAll<T>(xs: seq<T>)
    ensures xs[..|xs|] == xs
  {
  }

  /** One update per secret, in order, each with that secret's own name, value and tags. */
  predicate ReimportOps(ss: seq<Secret>, ops: seq<SecretOp>, now: string) {
    |ops| == |ss|
    && forall k :: 0 <= k < |ss| ==>
         ops[k] == Patch(ss[k].id, SecretPatch(Some(ss[k].name), Some(ss[k].value), Some(ss[k].tags), None), now)
  }

  /** Re-importing a folder's own names and values makes exactly those updates. */
  lemma ReimportMakesUpdates(ss: seq<Secret>, freshId: nat -> string, now: string)
    requires UniqueNames(ss)
    ensures ReimportOps(ss, EnvOps(ss, EntriesOf(ss), freshId, now), now)
  {
    forall k | 0 <= k < |ss| ensures FindByName(ss, ss[k].name) == Some(ss[k]) {
      FindOwnName(ss, k);
    }
  }

  /** Applying the k-th update to the secrets stamped so far stamps one more. */
  lemma ReimportStep(ss: seq<Secret>, now: string, m: nat)
    requires m < |ss| && UniqueIds(ss)
    ensures var x := ss[m];
            ApplyOp(StampedPrefix(ss, now, m), Patch(x.id, SecretPatch(Some(x.name), Some(x.value), Some(x.tags), None), now))
            == StampedPrefix(ss, now, m + 1)
  {
    var cur := StampedPrefix(ss, now, m);
    assert forall k :: 0 <= k < |ss| ==> (cur[k].id == ss[m].id <==> k == m);
  }

  /** The first `m` updates of a re-import have stamped the first `m` secrets and nothing else. */
  lemma {:induction false} ReimportPrefix(ss: seq<Secret>, ops: seq<SecretOp>, now: string, m: nat)
    requires m <= |ss| && UniqueIds(ss) && ReimportOps(ss, ops, now)
    ensures ApplyOps(ss, ops[..m]) == StampedPrefix(ss, now, m)
  {
    if m == 0 {
      assert ops[..0] == [];
      assert StampedPrefix(ss, now, 0) == ss;
    } else {
      var x := ss[m - 1];
      var op := Patch(x.id, SecretPatch(Some(x.name), Some(x.value), Some(x.tags), None), now);
      assert ops[m - 1] == op;
      calc {
        ApplyOps(ss, ops[..m]);
        { TakeSnoc(ops, m - 1); }
        ApplyOps(ss, ops[..m - 1] + [op]);
        { ApplyOpsSnoc(ss, ops[..m - 1], op); }
        ApplyOp(ApplyOps(ss, ops[..m - 1]), op);
        { ReimportPrefix(ss, ops, now, m - 1); }
        ApplyOp(StampedPrefix(ss, now, m - 1), op);
        { ReimportStep(ss, now, m - 1); }
        StampedPrefix(ss, now, m);
      }
    }
  }

  /** Re-importing a folder's own names and values stamps every secret and changes nothing else. */
  lemma Reimport(ss: seq<Secret>, freshId: nat -> string, now: string)
    requires UniqueNames(ss) && UniqueIds(ss)
    ensures ApplyOps(ss, EnvOps(ss, EntriesOf(ss), freshId, now)) == Stamped(ss, now)
  {
    var ops := EnvOps(ss, EntriesOf(ss), freshId, now);
    ReimportMakesUpdates(ss, freshId, now);
    ReimportPrefix(ss, ops, now, |ss|);
    TakeAll(ops);
    StampedPrefixAll(ss, now);
  }

  /** Importing a text whose entries are `entries`, with a folder selected. */
  lemma ImportOfEntries(d: SecretsData, selected: string, text: string, entries: seq<EnvEntry>, freshId: nat -> string, now: string)
    requires SelectedFolder(d, selected).Some? && entries != [] && EnvEntries(Split(text, '\n')) == entries
    ensures var f := SelectedFolder(d, selected).value;
            var r := ImportEnv(d, selected, text, freshId, now);
            r.Some? && SelectedFolder(r.value, selected) == Some(f.(secrets := ApplyOps(f.secrets, EnvOps(f.secrets, entries, freshId, now))))
  {
  }

  /** Exporting a folder and importing the text back into it adds no secret and changes no name,
      value or tag: every secret only gets the import's update time. This holds for secrets whose
      names are unique and exportable as `.env` lines, with unique ids. */
  lemma ExportThenImport(d: SecretsData, selected: string, freshId: nat -> string, now: string)
    requires SelectedFolder(d, selected).Some?
    requires var ss := SelectedFolder(d, selected).value.secrets;
             ss != [] && (forall k :: 0 <= k < |ss| ==> Exportable(ss[k])) && UniqueNames(ss) && UniqueIds(ss)
    ensures var f := SelectedFolder(d, selected).value;
            var r := ImportEnv(d, selected, ExportFolder(d, selected).value, freshId, now);
            r.Some? && SelectedFolder(r.value, selected) == Some(f.(secrets := Stamped(f.secrets, now)))
  {
    var ss := SelectedFolder(d, selected).value.secrets;
    var text := ExportEnv(ss);
    assert ExportFolder(d, selected).value == text;
    ParseExport(ss);
    ImportOfEntries(d, selected, text, EntriesOf(ss), freshId, now);
    Reimport(ss, freshId, now);
  }

  // ----- saving the dialog -----

  /** `handleSaveSecret(secretData)`: the payload updates the secret being edited, keeping its
      description, or becomes a new secret with the fresh id `secretId`, in the selected folder. */
  method HandleSaveSecret(store: Store.SecretsStore, editing: Option<Secret>, payload: SecretForm.Payload,
                          secretId: string, now: string)
    modifies store`data, store`persisted
    ensures editing.Some? ==>
              store.data == UpdateSecret(old(store.data), store.selectedFolderId, editing.value.id,
                                         SecretForm.ToPatch(payload), now)
    ensures editing.None? ==>
              store.data == AddSecret(old(store.data), store.selectedFolderId, SecretForm.ToInput(payload), secretId, now)
    ensures store.persisted == Saved(store.data)
  {
    if editing.Some? {
      store.UpdateSecret(store.selectedFolderId, editing.value.id, SecretForm.ToPatch(payload), now);
    } else {
      store.AddSecret(store.selectedFolderId, SecretForm.ToInput(payload), secretId, now);
    }
  }

  /** Updating the k-th secret of a list with unique ids by its own fields restamps it alone. */
  lemma RestampOne(ss: seq<Secret>, k: nat, patch: SecretPatch, now: string)
    requires UniqueIds(ss) && k < |ss| && Merge(ss[k], patch, now) == ss[k].(updatedAt := now)
    ensures ApplyOps(ss, [Patch(ss[k].id, patch, now)]) == ss[k := ss[k].(updatedAt := now)]
  {
    ApplyOpsSnoc(ss, [], Patch(ss[k].id, patch, now));
    assert forall m :: 0 <= m < |ss| ==> (ss[m].id == ss[k].id <==> m == k);
  }

  /** Opening a secret of the selected folder, whose ids are unique, and saving the dialog
      unchanged replaces that secret by itself with a new update time and touches no other. */
  lemma ResaveOnlyRestamps(d: SecretsData, selected: string, k: nat, now: string)
    requires SelectedFolder(d, selected).Some?
    requires var f := SelectedFolder(d, selected).value;
             UniqueIds(f.secrets) && k < |f.secrets| && SecretForm.Editable(f.secrets[k])
    ensures var f := SelectedFolder(d, selected).value;
            var s := f.secrets[k];
            var p := SecretForm.HandleSave(SecretForm.Prefill(Some(s)));
            p.Some?
            && SelectedFolder(UpdateSecret(d, selected, s.id, SecretForm.ToPatch(p.value), now), selected)
               == Some(f.(secrets := f.secrets[k := s.(updatedAt := now)]))
  {
    var f := SelectedFolder(d, selected).value;
    var s := f.secrets[k];
    SecretForm.SaveUnchanged(s, now);
    var patch := SecretForm.ToPatch(SecretForm.Payload(s.name, s.value, s.tags));
    RestampOne(f.secrets, k, patch, now);
    SelectedAfterEdit(d, selected, [Patch(s.id, patch, now)], now);
  }

  // ----- tag filter and mask -----

  /** The test `filter` keeps: every tag but `tag`. */
  function Other(tag: string): string -> bool {
    t => t != tag
  }

  /** `toggleTagFilter(tag)`: drops every occurrence of a selected tag, or appends an unselected one. */
  function ToggleTag(tags: seq<string>, tag: string): (r: seq<string>)
    ensures tag in r <==> tag !in tags
    ensures forall t :: t != tag ==> (t in r <==> t in tags)
    ensures tag in tags ==> IsSubsequence(r, tags)
    ensures tag in tags ==> forall t :: multiset(r)[t] == if t != tag then multiset(tags)[t] else 0
    ensures tag !in tags ==> |r| == |tags| + 1 && r[..|tags|] == tags
  {
    FilterCount(tags, Other(tag));
    if tag in tags then Filter(tags, Other(tag)) else tags + [tag]
  }

  /** Toggling an unselected tag twice restores the list. */
  lemma ToggleTwice(tags: seq<string>, tag: string)
    requires tag !in tags
    ensures ToggleTag(ToggleTag(tags, tag), tag) == tags
  {
    FilterAppend(tags, [tag], Other(tag));
    assert [tag][1..] == [];
  }

  /** Toggling a tag on keeps exactly the listed secrets that also carry that tag. */
  lemma ToggleOnNarrows(d: SecretsData, selected: string, term: string, tags: seq<string>, tag: string)
    requires tag !in tags
    ensures forall x :: x in FilteredSecrets(d, selected, term, ToggleTag(tags, tag))
                        <==> x in FilteredSecrets(d, selected, term, tags) && tag in x.tags
  {
    var on := ToggleTag(tags, tag);
    assert forall x :: MatchesTags(x, on) <==> MatchesTags(x, tags) && tag in x.tags;
  }

  /** `toggleTagFilter(tag)` on the store. */
  method ToggleTagFilter(store: Store.SecretsStore, tag: string)
    modifies store`selectedTags
    ensures store.selectedTags == ToggleTag(old(store.selectedTags), tag)
  {
    store.SetSelectedTags(ToggleTag(store.selectedTags, tag));
  }

  function Min(a: int, b: int): int {
    if a < b then a else b
  }

  /** `c.repeat(n)`. */
  function Repeat(c: char, n: nat): (r: string)
    ensures |r| == n && forall i :: 0 <= i < n ==> r[i] == c
  {
    seq(n, i => c)
  }

  /** `value.length`: the number of UTF-16 code units, two for a character outside the Basic
      Multilingual Plane. */
  function Utf16Length(s: string): (r: nat)
    ensures |s| <= r <= 2 * |s|
    ensures (forall i :: 0 <= i < |s| ==> (s[i] as int) < 0x1_0000) ==> r == |s|
  {
    if s == [] then 0
    else Utf16Length(s[..|s| - 1]) + (if s[|s| - 1] as int < 0x1_0000 then 1 else 2)
  }

  /** `maskValue(value)`. */
  function MaskValue(value: string): (r: string)
    ensures |r| == Min(Utf16Length(value), 20) && forall i :: 0 <= i < |r| ==> r[i] == '*'
  {
    Repeat('*', Min(Utf16Length(value), 20))
  }

  /** The mask shows nothing of a value but its length up to 20: values of the same length, or
      both of length 20 or more, look the same. */
  lemma MaskShowsOnlyLength(a: string, b: string)
    ensures MaskValue(a) == MaskValue(b) <==> Min(Utf16Length(a), 20) == Min(Utf16Length(b), 20)
  {
    if Min(Utf16Length(a), 20) == Min(Utf16Length(b), 20) {
      assert forall i :: 0 <= i < |MaskValue(a)| ==> MaskValue(a)[i] == MaskValue(b)[i];
    }
  }

  /** A character outside the Basic Multilingual Plane counts two code units and so shows two stars. */
  lemma MaskOfAstralCharacter(c: char)
    requires c as int >= 0x1_0000
    ensures MaskValue([c]) == "**"
  {
    assert [c][..0] == [];
    assert Utf16Length([c]) == 2;
  }
}
