/** The new values the store's operations compute (the `map`/`filter` expressions handed
    to `set`), as functions of the old root document and selection. */
module StoreData {
  import opened Wrappers
  import opened JsonValues
  import opened Model
  import opened Schema
  import opened Seqs
  import Migration

  /** The folder id selected when a profile offers none. */
  const Placeholder: string := "default"

  /** The root document together with `selectedFolderId`. */
  datatype Session = Session(data: SecretsData, selectedFolderId: string)

  predicate HasProfile(ps: seq<Profile>, id: string) {
    exists i :: 0 <= i < |ps| && ps[i].id == id
  }

  predicate HasFolder(fs: seq<Folder>, id: string) {
    exists j :: 0 <= j < |fs| && fs[j].id == id
  }

  /** `currentProfileId` names an existing profile. */
  predicate CurrentExists(d: SecretsData) {
    HasProfile(d.profiles, d.currentProfileId)
  }

  /** The selected folder is the placeholder or a folder of a profile carrying the current id.
    * With duplicate ids this accepts a folder of any profile carrying it; where ids are unique,
    * `SelectionInCurrentProfile` narrows it to the profile `getCurrentProfile` returns. */
  predicate SelectionValid(s: Session) {
    s.selectedFolderId == Placeholder
    || exists i :: 0 <= i < |s.data.profiles| && s.data.profiles[i].id == s.data.currentProfileId
                   && HasFolder(s.data.profiles[i].folders, s.selectedFolderId)
  }

  /** Where `profiles.find(p => p.id === id)` stops; `|ps|` when nothing matches. */
  function ProfileIndex(ps: seq<Profile>, id: string): (r: nat)
    ensures r <= |ps|
    ensures r < |ps| <==> HasProfile(ps, id)
    ensures r < |ps| ==> ps[r].id == id
  {
    FirstIndex(ps, (p: Profile) => p.id == id)
  }

  function FolderIndex(fs: seq<Folder>, id: string): (r: nat)
    ensures r <= |fs|
    ensures r < |fs| <==> HasFolder(fs, id)
    ensures r < |fs| ==> fs[r].id == id
  {
    FirstIndex(fs, (f: Folder) => f.id == id)
  }

  /** No profile before the one `find` stops at carries the id. */
  lemma ProfileIndexIsFirst(ps: seq<Profile>, id: string)
    ensures forall j :: 0 <= j < ProfileIndex(ps, id) ==> ps[j].id != id
  {
  }

  /** No folder before the one `find` stops at carries the id. */
  lemma FolderIndexIsFirst(fs: seq<Folder>, id: string)
    ensures forall j :: 0 <= j < FolderIndex(fs, id) ==> fs[j].id != id
  {
  }

  /** `profiles.find(p => p.id === id)`. */
  function FindProfile(ps: seq<Profile>, id: string): (r: Option<Profile>)
    ensures r.None? <==> !HasProfile(ps, id)
    ensures r.Some? ==> r.value == ps[ProfileIndex(ps, id)] && r.value.id == id
  {
    var i := ProfileIndex(ps, id);
    if i < |ps| then Some(ps[i]) else None
  }

  /** `folders.find(f => f.id === id)`. */
  function FindFolder(fs: seq<Folder>, id: string): (r: Option<Folder>)
    ensures r.None? <==> !HasFolder(fs, id)
    ensures r.Some? ==> r.value == fs[FolderIndex(fs, id)] && r.value.id == id
  {
    var j := FolderIndex(fs, id);
    if j < |fs| then Some(fs[j]) else None
  }

  /** `getCurrentProfile`. */
  function CurrentProfile(d: SecretsData): (r: Option<Profile>)
    ensures r.Some? <==> CurrentExists(d)
    ensures r.Some? ==> r.value.id == d.currentProfileId && r.value in d.profiles
  {
    FindProfile(d.profiles, d.currentProfileId)
  }

  /** No two profiles carry the same id. */
  predicate UniqueProfileIds(ps: seq<Profile>) {
    forall i, j :: 0 <= i < j < |ps| ==> ps[i].id != ps[j].id
  }

  /** With unique profile ids, a valid selection is a folder of the current profile itself. */
  lemma SelectionInCurrentProfile(s: Session)
    requires UniqueProfileIds(s.data.profiles) && SelectionValid(s)
    ensures s.selectedFolderId == Placeholder
            || (CurrentExists(s.data) && HasFolder(CurrentProfile(s.data).value.folders, s.selectedFolderId))
  {
    if s.selectedFolderId != Placeholder {
      var ps, id := s.data.profiles, s.data.currentProfileId;
      var i :| 0 <= i < |ps| && ps[i].id == id && HasFolder(ps[i].folders, s.selectedFolderId);
      var k := ProfileIndex(ps, id);
      ProfileIndexIsFirst(ps, id);
      assert k == i;
    }
  }

  /** `profile.folders[0]?.id || "default"`. */
  function FirstFolderOr(p: Profile): (r: string)
    ensures r == Placeholder || HasFolder(p.folders, r)
    ensures p.folders != [] && p.folders[0].id != [] ==> r == p.folders[0].id
    ensures p.folders == [] || p.folders[0].id == [] ==> r == Placeholder
  {
    if p.folders != [] && p.folders[0].id != [] then p.folders[0].id else Placeholder
  }

  /** What `saveData` writes. */
  function Saved(d: SecretsData): Option<JsonText> {
    Some(Parsed(EncodeRoot(d)))
  }

  /** `r` keeps every profile of `d` in place, with its id and at least the folder ids it had,
      and keeps the current id: no operation of this kind can make a valid state invalid. */
  predicate KeepsFolders(d: SecretsData, r: SecretsData) {
    r.currentProfileId == d.currentProfileId && |d.profiles| <= |r.profiles|
    && forall i :: 0 <= i < |d.profiles| ==>
         r.profiles[i].id == d.profiles[i].id
         && forall j :: 0 <= j < |d.profiles[i].folders| ==> HasFolder(r.profiles[i].folders, d.profiles[i].folders[j].id)
  }

  lemma KeepsFoldersKeepsValidity(d: SecretsData, r: SecretsData, sel: string)
    requires KeepsFolders(d, r)
    ensures CurrentExists(d) ==> CurrentExists(r)
    ensures SelectionValid(Session(d, sel)) ==> SelectionValid(Session(r, sel))
  {
    if CurrentExists(d) {
      var i :| 0 <= i < |d.profiles| && d.profiles[i].id == d.currentProfileId;
      assert r.profiles[i].id == r.currentProfileId;
    }
    if sel != Placeholder && SelectionValid(Session(d, sel)) {
      var i :| 0 <= i < |d.profiles| && d.profiles[i].id == d.currentProfileId
               && HasFolder(d.profiles[i].folders, sel);
      var j :| 0 <= j < |d.profiles[i].folders| && d.profiles[i].folders[j].id == sel;
      assert HasFolder(r.profiles[i].folders, sel);
    }
  }

  // ----- profiles -----

  /** `addProfile(name)`: appends a profile with one empty folder named "default";
      `profileId` and `folderId` are the two fresh UUIDs. */
  function AddProfile(d: SecretsData, name: string, profileId: string, folderId: string, now: string): (r: SecretsData)
    ensures |r.profiles| == |d.profiles| + 1 && r.profiles[..|d.profiles|] == d.profiles
    ensures r.profiles[|d.profiles|] == Profile(profileId, name, [Folder(folderId, "default", [])], now, now)
    ensures KeepsFolders(d, r)
  {
    var r := d.(profiles := d.profiles + [Profile(profileId, name, [Folder(folderId, "default", [])], now, now)]);
    assert forall i, j :: 0 <= i < |d.profiles| && 0 <= j < |d.profiles[i].folders| ==>
      r.profiles[i].folders[j].id == d.profiles[i].folders[j].id;
    r
  }

  /** `deleteProfile(profileId)`. */
  function DeleteProfile(s: Session, profileId: string): (r: Session)
    ensures |s.data.profiles| <= 1 ==> r == s
    ensures IsSubsequence(r.data.profiles, s.data.profiles)
    ensures |s.data.profiles| > 1 && (s.data.currentProfileId != profileId || HasOtherProfile(s.data.profiles, profileId))
            ==> forall p :: p in r.data.profiles <==> p in s.data.profiles && p.id != profileId
    ensures |s.data.profiles| > 1 && (s.data.currentProfileId != profileId || HasOtherProfile(s.data.profiles, profileId))
            ==> forall p :: multiset(r.data.profiles)[p] == if p.id != profileId then multiset(s.data.profiles)[p] else 0
    ensures s.data.currentProfileId != profileId
            ==> r.data.currentProfileId == s.data.currentProfileId && r.selectedFolderId == s.selectedFolderId
    ensures |s.data.profiles| > 1 && s.data.currentProfileId == profileId && HasOtherProfile(s.data.profiles, profileId)
            ==> r.data.profiles != [] && r.data.currentProfileId == r.data.profiles[0].id
                && r.selectedFolderId == FirstFolderOr(r.data.profiles[0])
    ensures s.data.currentProfileId == profileId && !HasOtherProfile(s.data.profiles, profileId) ==> r == s
    ensures CurrentExists(s.data) ==> CurrentExists(r.data)
    ensures CurrentExists(s.data) && SelectionValid(s) ==> SelectionValid(r)
  {
    var d := s.data;
    SubsequenceReflexive(d.profiles);
    if |d.profiles| <= 1 then s
    else
      var remaining := Filter(d.profiles, (p: Profile) => p.id != profileId);
      FilterCount(d.profiles, (p: Profile) => p.id != profileId);
      if d.currentProfileId == profileId then
        if |remaining| > 0 then
          SurvivorExists(d.profiles, profileId);
          var r := Session(SecretsData(remaining, remaining[0].id), FirstFolderOr(remaining[0]));
          assert r.data.profiles[0].id == r.data.currentProfileId;
          assert SelectionValid(r) by {
            if r.selectedFolderId != Placeholder {
              assert HasFolder(r.data.profiles[0].folders, r.selectedFolderId);
            }
          }
          r
        else
          SurvivorExists(d.profiles, profileId);
          s
      else
        var r := Session(d.(profiles := remaining), s.selectedFolderId);
        KeepsCurrent(s, profileId, remaining);
        r
  }

  /** Some profile has an id other than `id`. */
  predicate HasOtherProfile(ps: seq<Profile>, id: string) {
    exists i :: 0 <= i < |ps| && ps[i].id != id
  }

  lemma SurvivorExists(ps: seq<Profile>, id: string)
    ensures Filter(ps, (p: Profile) => p.id != id) != [] <==> HasOtherProfile(ps, id)
  {
    var remaining := Filter(ps, (p: Profile) => p.id != id);
    if HasOtherProfile(ps, id) {
      var i :| 0 <= i < |ps| && ps[i].id != id;
      assert ps[i] in remaining;
    }
    if remaining != [] {
      assert remaining[0] in ps;
    }
  }

  /** Deleting a profile other than the current one keeps the current profile and its folders. */
  lemma KeepsCurrent(s: Session, profileId: string, remaining: seq<Profile>)
    requires s.data.currentProfileId != profileId
    requires remaining == Filter(s.data.profiles, (p: Profile) => p.id != profileId)
    ensures CurrentExists(s.data) ==> CurrentExists(s.data.(profiles := remaining))
    ensures SelectionValid(s) ==> SelectionValid(Session(s.data.(profiles := remaining), s.selectedFolderId))
  {
    var d := s.data;
    if CurrentExists(d) {
      var i :| 0 <= i < |d.profiles| && d.profiles[i].id == d.currentProfileId;
      assert d.profiles[i] in remaining;
    }
    if s.selectedFolderId != Placeholder && SelectionValid(s) {
      var i :| 0 <= i < |d.profiles| && d.profiles[i].id == d.currentProfileId
               && HasFolder(d.profiles[i].folders, s.selectedFolderId);
      assert d.profiles[i] in remaining;
      var k :| 0 <= k < |remaining| && remaining[k] == d.profiles[i];
      assert remaining[k].id == d.currentProfileId && HasFolder(remaining[k].folders, s.selectedFolderId);
    }
  }

  /** `renameProfile(profileId, newName)`. */
  function RenameProfile(d: SecretsData, profileId: string, name: string, now: string): (r: SecretsData)
    ensures r.currentProfileId == d.currentProfileId && |r.profiles| == |d.profiles|
    ensures forall i :: 0 <= i < |d.profiles| ==>
              r.profiles[i] == if d.profiles[i].id == profileId then d.profiles[i].(name := name, updatedAt := now)
                               else d.profiles[i]
    ensures KeepsFolders(d, r)
  {
    var ps := seq(|d.profiles|, i requires 0 <= i < |d.profiles| =>
      if d.profiles[i].id == profileId then d.profiles[i].(name := name, updatedAt := now) else d.profiles[i]);
    var r := d.(profiles := ps);
    assert forall i, j :: 0 <= i < |d.profiles| && 0 <= j < |d.profiles[i].folders| ==>
      r.profiles[i].folders[j].id == d.profiles[i].folders[j].id;
    r
  }

  /** `setCurrentProfile(profileId)`; the state is unchanged for an unknown id. */
  function SetCurrentProfile(s: Session, profileId: string): (r: Session)
    ensures !HasProfile(s.data.profiles, profileId) ==> r == s
    ensures HasProfile(s.data.profiles, profileId) ==>
              r.data == s.data.(currentProfileId := profileId) && CurrentExists(r.data)
              && r.selectedFolderId == FirstFolderOr(FindProfile(s.data.profiles, profileId).value)
              && SelectionValid(r)
  {
    match FindProfile(s.data.profiles, profileId)
    case None => s
    case Some(p) =>
      var r := Session(s.data.(currentProfileId := profileId), FirstFolderOr(p));
      assert r.data.profiles[ProfileIndex(s.data.profiles, profileId)] == p;
      r
  }

  // ----- folders -----

  /** `addFolder(name)`: appends an empty folder with the fresh id `folderId` to the current profile. */
  function AddFolder(d: SecretsData, name: string, folderId: string, now: string): (r: SecretsData)
    ensures r.currentProfileId == d.currentProfileId && |r.profiles| == |d.profiles|
    ensures forall i :: 0 <= i < |d.profiles| ==>
              r.profiles[i] == if d.profiles[i].id == d.currentProfileId
                               then d.profiles[i].(folders := d.profiles[i].folders + [Folder(folderId, name, [])], updatedAt := now)
                               else d.profiles[i]
    ensures KeepsFolders(d, r)
  {
    var ps := seq(|d.profiles|, i requires 0 <= i < |d.profiles| =>
      if d.profiles[i].id == d.currentProfileId
      then d.profiles[i].(folders := d.profiles[i].folders + [Folder(folderId, name, [])], updatedAt := now)
      else d.profiles[i]);
    var r := d.(profiles := ps);
    assert forall i, j :: 0 <= i < |d.profiles| && 0 <= j < |d.profiles[i].folders| ==>
      r.profiles[i].folders[j].id == d.profiles[i].folders[j].id;
    r
  }

  /** `renameFolder(folderId, newName)`: renames the matching folders of the current profile. */
  function RenameFolder(d: SecretsData, folderId: string, name: string, now: string): (r: SecretsData)
    ensures r.currentProfileId == d.currentProfileId && |r.profiles| == |d.profiles|
    ensures forall i :: 0 <= i < |d.profiles| && d.profiles[i].id != d.currentProfileId ==> r.profiles[i] == d.profiles[i]
    ensures forall i :: 0 <= i < |d.profiles| && d.profiles[i].id == d.currentProfileId ==>
              var p, q := d.profiles[i], r.profiles[i];
              q == p.(folders := q.folders, updatedAt := now) && |q.folders| == |p.folders|
              && forall j :: 0 <= j < |p.folders| ==>
                   q.folders[j] == if p.folders[j].id == folderId then p.folders[j].(name := name) else p.folders[j]
    ensures KeepsFolders(d, r)
  {
    var ps := seq(|d.profiles|, i requires 0 <= i < |d.profiles| =>
      var p := d.profiles[i];
      if p.id == d.currentProfileId
      then p.(folders := seq(|p.folders|, j requires 0 <= j < |p.folders| =>
                if p.folders[j].id == folderId then p.folders[j].(name := name) else p.folders[j]),
              updatedAt := now)
      else p);
    var r := d.(profiles := ps);
    assert forall i, j :: 0 <= i < |d.profiles| && 0 <= j < |d.profiles[i].folders| ==>
      r.profiles[i].folders[j].id == d.profiles[i].folders[j].id;
    r
  }

  /** A profile without its folders `folderId`, stamped `now`. */
  function DropFolder(p: Profile, folderId: string, now: string): (q: Profile)
    ensures q == p.(folders := q.folders, updatedAt := now)
    ensures IsSubsequence(q.folders, p.folders)
    ensures forall f :: f in q.folders <==> f in p.folders && f.id != folderId
    ensures forall f :: multiset(q.folders)[f] == if f.id != folderId then multiset(p.folders)[f] else 0
    ensures forall id :: id != folderId && HasFolder(p.folders, id) ==> HasFolder(q.folders, id)
  {
    var q := p.(folders := Filter(p.folders, (f: Folder) => f.id != folderId), updatedAt := now);
    FilterCount(p.folders, (f: Folder) => f.id != folderId);
    assert forall id :: id != folderId && HasFolder(p.folders, id) ==> HasFolder(q.folders, id) by {
      forall id | id != folderId && HasFolder(p.folders, id)
        ensures HasFolder(q.folders, id)
      {
        var j :| 0 <= j < |p.folders| && p.folders[j].id == id;
        assert p.folders[j] in q.folders;
        var m :| 0 <= m < |q.folders| && q.folders[m] == p.folders[j];
      }
    }
    q
  }

  /** `deleteFolder(folderId)`: drops the matching folders of the current profile and, when the
      selected folder was deleted, selects the current profile's first folder or the placeholder. */
  function DeleteFolder(s: Session, folderId: string, now: string): (r: Session)
    ensures r.data.currentProfileId == s.data.currentProfileId && |r.data.profiles| == |s.data.profiles|
    ensures forall i :: 0 <= i < |s.data.profiles| ==>
              r.data.profiles[i] == if s.data.profiles[i].id == s.data.currentProfileId
                                    then DropFolder(s.data.profiles[i], folderId, now) else s.data.profiles[i]
    ensures s.selectedFolderId != folderId ==> r.selectedFolderId == s.selectedFolderId
    ensures s.selectedFolderId == folderId ==>
              r.selectedFolderId == (if CurrentExists(r.data) then FirstFolderOr(CurrentProfile(r.data).value) else Placeholder)
    ensures CurrentExists(s.data) ==> CurrentExists(r.data)
    ensures SelectionValid(s) ==> SelectionValid(r)
  {
    var d := s.data;
    var ps := seq(|d.profiles|, i requires 0 <= i < |d.profiles| =>
      if d.profiles[i].id == d.currentProfileId then DropFolder(d.profiles[i], folderId, now) else d.profiles[i]);
    var data := d.(profiles := ps);
    var current := CurrentProfile(data);
    var selected := if s.selectedFolderId == folderId
                    then (if current.Some? then FirstFolderOr(current.value) else Placeholder)
                    else s.selectedFolderId;
    DeleteFolderKeepsValidity(s, folderId, data, selected);
    Session(data, selected)
  }

  lemma DeleteFolderKeepsValidity(s: Session, folderId: string, data: SecretsData, selected: string)
    requires data.currentProfileId == s.data.currentProfileId && |data.profiles| == |s.data.profiles|
    requires forall i :: 0 <= i < |s.data.profiles| ==>
               data.profiles[i].id == s.data.profiles[i].id
               && (s.data.profiles[i].id == s.data.currentProfileId ==>
                     forall id :: id != folderId && HasFolder(s.data.profiles[i].folders, id) ==> HasFolder(data.profiles[i].folders, id))
               && (s.data.profiles[i].id != s.data.currentProfileId ==> data.profiles[i] == s.data.profiles[i])
    requires selected == if s.selectedFolderId == folderId
                         then (if CurrentExists(data) then FirstFolderOr(CurrentProfile(data).value) else Placeholder)
                         else s.selectedFolderId
    ensures CurrentExists(s.data) ==> CurrentExists(data)
    ensures SelectionValid(s) ==> SelectionValid(Session(data, selected))
  {
    var d := s.data;
    if CurrentExists(d) {
      var i :| 0 <= i < |d.profiles| && d.profiles[i].id == d.currentProfileId;
      assert data.profiles[i].id == data.currentProfileId;
    }
    if SelectionValid(s) && selected != Placeholder {
      if s.selectedFolderId == folderId {
        var k := ProfileIndex(data.profiles, data.currentProfileId);
        assert data.profiles[k] == CurrentProfile(data).value;
        assert HasFolder(data.profiles[k].folders, selected);
      } else {
        var i :| 0 <= i < |d.profiles| && d.profiles[i].id == d.currentProfileId
                 && HasFolder(d.profiles[i].folders, selected);
        assert HasFolder(data.profiles[i].folders, selected);
      }
    }
  }

  // ----- secrets -----

  /** The secret `addSecret` builds from the form input; `id` is the fresh UUID. */
  function NewSecret(input: SecretInput, id: string, now: string): (r: Secret)
    ensures r.createdAt == r.updatedAt == now && r.id == id
  {
    Secret(id, input.name, input.value, input.tags, input.description, now, now)
  }

  /** `{ ...s, ...updates, updatedAt: now }`. */
  function Merge(s: Secret, patch: SecretPatch, now: string): (r: Secret)
    ensures r.id == s.id && r.createdAt == s.createdAt && r.updatedAt == now
    ensures patch.name.None? ==> r.name == s.name
    ensures patch.value.None? ==> r.value == s.value
    ensures patch.tags.None? ==> r.tags == s.tags
    ensures patch.description.None? ==> r.description == s.description
    ensures patch.name.Some? ==> r.name == patch.name.value
    ensures patch.value.Some? ==> r.value == patch.value.value
    ensures patch.tags.Some? ==> r.tags == patch.tags.value
    ensures patch.description.Some? ==> r.description == patch.description.value
  {
    Secret(s.id, patch.name.GetOr(s.name), patch.value.GetOr(s.value), patch.tags.GetOr(s.tags),
           patch.description.GetOr(s.description), s.createdAt, now)
  }

  /** One change to a folder's secret list. */
  datatype SecretOp =
    | Append(secret: Secret)
    | Patch(secretId: string, patch: SecretPatch, now: string)
    | Remove(secretId: string)

  function ApplyOp(ss: seq<Secret>, op: SecretOp): (r: seq<Secret>)
    ensures op.Append? ==> r == ss + [op.secret]
    ensures op.Patch? ==> |r| == |ss| && forall k :: 0 <= k < |ss| ==>
              r[k] == if ss[k].id == op.secretId then Merge(ss[k], op.patch, op.now) else ss[k]
    ensures op.Remove? ==> IsSubsequence(r, ss) && forall x :: x in r <==> x in ss && x.id != op.secretId
    ensures op.Remove? ==> forall x :: multiset(r)[x] == if x.id != op.secretId then multiset(ss)[x] else 0
  {
    match op
    case Append(secret) => ss + [secret]
    case Patch(id, patch, now) =>
      seq(|ss|, k requires 0 <= k < |ss| => if ss[k].id == id then Merge(ss[k], patch, now) else ss[k])
    case Remove(id) =>
      FilterCount(ss, (x: Secret) => x.id != id);
      Filter(ss, (x: Secret) => x.id != id)
  }

  /** The changes applied in order (the last one last). */
  function ApplyOps(ss: seq<Secret>, ops: seq<SecretOp>): seq<Secret> {
    if ops == [] then ss else ApplyOp(ApplyOps(ss, ops[..|ops| - 1]), ops[|ops| - 1])
  }

  lemma ApplyOpsSnoc(ss: seq<Secret>, ops: seq<SecretOp>, op: SecretOp)
    ensures ApplyOps(ss, ops + [op]) == ApplyOp(ApplyOps(ss, ops), op)
    ensures ApplyOps(ss, [op]) == ApplyOp(ss, op)
  {
    assert (ops + [op])[..|ops|] == ops;
    assert [op][..0] == [];
  }

  /** `r` differs from `d` only in the secrets of folders `folderId` of the current profile
      and in that profile's `updatedAt`, which is `now`. */
  predicate ChangesOnlyFolder(d: SecretsData, r: SecretsData, folderId: string, now: string) {
    r.currentProfileId == d.currentProfileId && |r.profiles| == |d.profiles|
    && forall i :: 0 <= i < |d.profiles| ==>
         if d.profiles[i].id != d.currentProfileId then r.profiles[i] == d.profiles[i]
         else
           r.profiles[i] == d.profiles[i].(folders := r.profiles[i].folders, updatedAt := now)
           && |r.profiles[i].folders| == |d.profiles[i].folders|
           && forall j :: 0 <= j < |d.profiles[i].folders| ==>
                r.profiles[i].folders[j]
                == if d.profiles[i].folders[j].id != folderId then d.profiles[i].folders[j]
                   else d.profiles[i].folders[j].(secrets := r.profiles[i].folders[j].secrets)
  }

  lemma ChangesOnlyFolderKeepsFolders(d: SecretsData, r: SecretsData, folderId: string, now: string)
    requires ChangesOnlyFolder(d, r, folderId, now)
    ensures KeepsFolders(d, r)
  {
    assert forall i, j :: 0 <= i < |d.profiles| && 0 <= j < |d.profiles[i].folders| ==>
      r.profiles[i].folders[j].id == d.profiles[i].folders[j].id;
  }

  /** The shared shape of `addSecret`, `updateSecret` and `deleteSecret` (and of the sequence of
      such calls an `.env` import makes): every folder `folderId` of the current profile gets
      `ops` applied to its secrets, and the current profile is stamped `now`. */
  function EditCurrent(d: SecretsData, folderId: string, ops: seq<SecretOp>, now: string): (r: SecretsData)
    ensures ChangesOnlyFolder(d, r, folderId, now)
    ensures forall i, j :: 0 <= i < |d.profiles| && d.profiles[i].id == d.currentProfileId
              && 0 <= j < |d.profiles[i].folders| && d.profiles[i].folders[j].id == folderId
              ==> r.profiles[i].folders[j].secrets == ApplyOps(d.profiles[i].folders[j].secrets, ops)
    ensures KeepsFolders(d, r)
  {
    var r := d.(profiles := seq(|d.profiles|, i requires 0 <= i < |d.profiles| =>
      var p := d.profiles[i];
      if p.id == d.currentProfileId
      then p.(folders := seq(|p.folders|, j requires 0 <= j < |p.folders| =>
                if p.folders[j].id == folderId then p.folders[j].(secrets := ApplyOps(p.folders[j].secrets, ops))
                else p.folders[j]),
              updatedAt := now)
      else p));
    ChangesOnlyFolderKeepsFolders(d, r, folderId, now);
    r
  }

  /** Applying one more change after a batch is applying the longer batch. */
  lemma EditCurrentStep(d: SecretsData, folderId: string, ops: seq<SecretOp>, op: SecretOp, now: string)
    ensures EditCurrent(EditCurrent(d, folderId, ops, now), folderId, [op], now) == EditCurrent(d, folderId, ops + [op], now)
  {
    var a := EditCurrent(EditCurrent(d, folderId, ops, now), folderId, [op], now);
    var b := EditCurrent(d, folderId, ops + [op], now);
    forall i | 0 <= i < |d.profiles|
      ensures a.profiles[i] == b.profiles[i]
    {
      if d.profiles[i].id == d.currentProfileId {
        assert |a.profiles[i].folders| == |b.profiles[i].folders|;
        forall j | 0 <= j < |d.profiles[i].folders|
          ensures a.profiles[i].folders[j] == b.profiles[i].folders[j]
        {
          var ss := d.profiles[i].folders[j].secrets;
          ApplyOpsSnoc(ss, ops, op);
          ApplyOpsSnoc(ApplyOps(ss, ops), [], op);
        }
        assert a.profiles[i].folders == b.profiles[i].folders;
      }
    }
    assert a.profiles == b.profiles;
  }

  /** `addSecret(folderId, secretData)`: appends the new secret to folder `folderId` of the current profile. */
  function AddSecret(d: SecretsData, folderId: string, input: SecretInput, secretId: string, now: string): (r: SecretsData)
    ensures ChangesOnlyFolder(d, r, folderId, now)
    ensures forall i, j :: 0 <= i < |d.profiles| && d.profiles[i].id == d.currentProfileId
              && 0 <= j < |d.profiles[i].folders| && d.profiles[i].folders[j].id == folderId
              ==> r.profiles[i].folders[j].secrets == d.profiles[i].folders[j].secrets + [NewSecret(input, secretId, now)]
  {
    assert forall ss :: ApplyOps(ss, [Append(NewSecret(input, secretId, now))]) == ApplyOp(ss, Append(NewSecret(input, secretId, now))) by {
      forall ss { ApplyOpsSnoc(ss, [], Append(NewSecret(input, secretId, now))); }
    }
    EditCurrent(d, folderId, [Append(NewSecret(input, secretId, now))], now)
  }

  /** `updateSecret(folderId, secretId, updates)`: merges `patch` over every secret `secretId`
      of folder `folderId` of the current profile. */
  function UpdateSecret(d: SecretsData, folderId: string, secretId: string, patch: SecretPatch, now: string): (r: SecretsData)
    ensures ChangesOnlyFolder(d, r, folderId, now)
    ensures forall i, j :: 0 <= i < |d.profiles| && d.profiles[i].id == d.currentProfileId
              && 0 <= j < |d.profiles[i].folders| && d.profiles[i].folders[j].id == folderId
              ==> var ss, rs := d.profiles[i].folders[j].secrets, r.profiles[i].folders[j].secrets;
                  |rs| == |ss| && forall k :: 0 <= k < |ss| ==>
                    rs[k] == if ss[k].id == secretId then Merge(ss[k], patch, now) else ss[k]
  {
    assert forall ss :: ApplyOps(ss, [Patch(secretId, patch, now)]) == ApplyOp(ss, Patch(secretId, patch, now)) by {
      forall ss { ApplyOpsSnoc(ss, [], Patch(secretId, patch, now)); }
    }
    EditCurrent(d, folderId, [Patch(secretId, patch, now)], now)
  }

  /** `deleteSecret(folderId, secretId)`: drops the secrets `secretId` of folder `folderId` of the current profile. */
  function DeleteSecret(d: SecretsData, folderId: string, secretId: string, now: string): (r: SecretsData)
    ensures ChangesOnlyFolder(d, r, folderId, now)
    ensures forall i, j :: 0 <= i < |d.profiles| && d.profiles[i].id == d.currentProfileId
              && 0 <= j < |d.profiles[i].folders| && d.profiles[i].folders[j].id == folderId
              ==> var ss, rs := d.profiles[i].folders[j].secrets, r.profiles[i].folders[j].secrets;
                  IsSubsequence(rs, ss) && (forall x :: x in rs <==> x in ss && x.id != secretId)
                  && forall x :: multiset(rs)[x] == if x.id != secretId then multiset(ss)[x] else 0
  {
    assert forall ss :: ApplyOps(ss, [Remove(secretId)]) == ApplyOp(ss, Remove(secretId)) by {
      forall ss { ApplyOpsSnoc(ss, [], Remove(secretId)); }
    }
    EditCurrent(d, folderId, [Remove(secretId)], now)
  }

  // ----- loading -----

  /** `loadData`'s repair of `currentProfileId`: the first profile's id, or "default". */
  function NormalizeCurrent(d: SecretsData): (r: SecretsData)
    ensures r.profiles == d.profiles
    ensures CurrentExists(d) ==> r == d
    ensures CurrentExists(r) <==>
              CurrentExists(d) || (d.profiles != [] && d.profiles[0].id != []) || HasProfile(d.profiles, Placeholder)
    ensures !CurrentExists(d) ==>
              r.currentProfileId == if d.profiles != [] && d.profiles[0].id != [] then d.profiles[0].id else Placeholder
  {
    if CurrentExists(d) then d
    else d.(currentProfileId := if d.profiles != [] && d.profiles[0].id != [] then d.profiles[0].id else Placeholder)
  }

  /** `loadData`'s repair of the selection. It looks the profile up by the stored, un-normalised
      `currentProfileId`, and replaces the selection only by a first folder that exists. */
  function RepairSelection(d: SecretsData, selected: string): (r: string)
    ensures !CurrentExists(d) ==> r == selected
    ensures CurrentExists(d) && CurrentProfile(d).value.folders != [] ==> HasFolder(CurrentProfile(d).value.folders, r)
    ensures CurrentExists(d) && HasFolder(CurrentProfile(d).value.folders, selected) ==> r == selected
    ensures CurrentExists(d) && CurrentProfile(d).value.folders == [] ==> r == selected
    ensures CurrentExists(d) && !HasFolder(CurrentProfile(d).value.folders, selected) && CurrentProfile(d).value.folders != []
            ==> r == CurrentProfile(d).value.folders[0].id
  {
    match CurrentProfile(d)
    case None => selected
    case Some(p) =>
      if !HasFolder(p.folders, selected) && |p.folders| > 0 then p.folders[0].id else selected
  }

  /** The root `loadData` adopts from stored text: the migrated document, when it is a root document. */
  function StoredRoot(stored: JsonText, now: string, defaults: SecretsData): (r: Option<SecretsData>)
    ensures stored.Unparsable? ==> r.None?
  {
    match Migration.MigrateOldData(stored, now, defaults)
    case None => None
    case Some(m) => DecodeRoot(m)
  }

  /** `loadData`'s new state. `stored` is what storage holds (None when absent or empty);
      a stored text that does not yield a root document takes the `catch` path to the defaults. */
  function Load(stored: Option<JsonText>, s: Session, defaults: SecretsData, now: string): (r: Session)
    ensures stored.None? ==> r == s
    ensures stored.Some? && StoredRoot(stored.value, now, defaults).None? ==> r == Session(defaults, s.selectedFolderId)
    ensures stored.Some? && StoredRoot(stored.value, now, defaults).Some? ==>
              var d := StoredRoot(stored.value, now, defaults).value;
              r.data.profiles == d.profiles
              && (CurrentExists(d) ==> r.data == d)
              && (!CurrentExists(d) ==> r.selectedFolderId == s.selectedFolderId)
              && r == Session(NormalizeCurrent(d), RepairSelection(d, s.selectedFolderId))
  {
    if stored.None? then s
    else
      match StoredRoot(stored.value, now, defaults)
      case None => Session(defaults, s.selectedFolderId)
      case Some(d) => Session(NormalizeCurrent(d), RepairSelection(d, s.selectedFolderId))
  }

  /** What storage holds after `loadData`: the defaults are written only when nothing was stored. */
  function StoredAfterLoad(stored: Option<JsonText>, defaults: SecretsData): (r: Option<JsonText>)
    ensures stored.Some? ==> r == stored
    ensures stored.None? ==> r == Saved(defaults)
  {
    if stored.None? then Saved(defaults) else stored
  }

  /** Loading what was saved restores the saved root and keeps or repairs the selection. */
  lemma LoadAfterSave(d: SecretsData, s: Session, defaults: SecretsData, now: string)
    requires CurrentExists(d)
    ensures var r := Load(Saved(d), s, defaults, now);
            r.data == d
            && (HasFolder(CurrentProfile(d).value.folders, s.selectedFolderId) ==> r.selectedFolderId == s.selectedFolderId)
            && (CurrentProfile(d).value.folders != [] ==> HasFolder(CurrentProfile(d).value.folders, r.selectedFolderId))
  {
    Migration.MigrateSavedRoot(d, now, defaults);
    RootRoundTrip(d);
  }

  /** With a stale stored `currentProfileId`, loading makes the first profile current but the
      selection is looked up in none and kept: when no profile carrying the first profile's id
      has the selected folder, the loaded state's selection is invalid. */
  lemma LoadKeepsStaleSelection(d: SecretsData, s: Session, defaults: SecretsData, now: string)
    requires !CurrentExists(d) && d.profiles != [] && d.profiles[0].id != []
    requires s.selectedFolderId != Placeholder
    requires forall i :: 0 <= i < |d.profiles| && d.profiles[i].id == d.profiles[0].id
                         ==> !HasFolder(d.profiles[i].folders, s.selectedFolderId)
    ensures var r := Load(Saved(d), s, defaults, now);
            r.data.currentProfileId == d.profiles[0].id && CurrentExists(r.data)
            && r.selectedFolderId == s.selectedFolderId && !SelectionValid(r)
  {
    Migration.MigrateSavedRoot(d, now, defaults);
    RootRoundTrip(d);
    var r := Load(Saved(d), s, defaults, now);
    assert r == Session(NormalizeCurrent(d), RepairSelection(d, s.selectedFolderId));
    assert r.data.profiles[0].id == r.data.currentProfileId;
  }

  /** A stored root with no profiles loads into a state whose current profile does not exist. */
  lemma LoadOfEmptyRoot(c: string, s: Session, defaults: SecretsData, now: string)
    ensures !CurrentExists(Load(Saved(SecretsData([], c)), s, defaults, now).data)
  {
    Migration.MigrateSavedRoot(SecretsData([], c), now, defaults);
    RootRoundTrip(SecretsData([], c));
  }

  // ----- sequences of operations -----

  /** A call of one of the store's editing operations, with the fresh ids and clock readings it uses. */
  datatype Command =
    | AddProfileCmd(name: string, profileId: string, folderId: string, now: string)
    | DeleteProfileCmd(profileId: string)
    | RenameProfileCmd(profileId: string, name: string, now: string)
    | SetCurrentProfileCmd(profileId: string)
    | AddFolderCmd(name: string, folderId: string, now: string)
    | DeleteFolderCmd(folderId: string, now: string)
    | RenameFolderCmd(folderId: string, name: string, now: string)
    | AddSecretCmd(folderId: string, input: SecretInput, secretId: string, now: string)
    | UpdateSecretCmd(folderId: string, secretId: string, patch: SecretPatch, now: string)
    | DeleteSecretCmd(folderId: string, secretId: string, now: string)

  function Step(s: Session, c: Command): Session {
    match c
    case AddProfileCmd(name, pid, fid, now) => s.(data := AddProfile(s.data, name, pid, fid, now))
    case DeleteProfileCmd(pid) => DeleteProfile(s, pid)
    case RenameProfileCmd(pid, name, now) => s.(data := RenameProfile(s.data, pid, name, now))
    case SetCurrentProfileCmd(pid) => SetCurrentProfile(s, pid)
    case AddFolderCmd(name, fid, now) => s.(data := AddFolder(s.data, name, fid, now))
    case DeleteFolderCmd(fid, now) => DeleteFolder(s, fid, now)
    case RenameFolderCmd(fid, name, now) => s.(data := RenameFolder(s.data, fid, name, now))
    case AddSecretCmd(fid, input, sid, now) => s.(data := AddSecret(s.data, fid, input, sid, now))
    case UpdateSecretCmd(fid, sid, patch, now) => s.(data := UpdateSecret(s.data, fid, sid, patch, now))
    case DeleteSecretCmd(fid, sid, now) => s.(data := DeleteSecret(s.data, fid, sid, now))
  }

  function Run(s: Session, cs: seq<Command>): Session
    decreases |cs|
  {
    if cs == [] then s else Run(Step(s, cs[0]), cs[1..])
  }

  /** Every editing operation keeps the current profile existing and the selection valid. */
  lemma StepKeepsValidity(s: Session, c: Command)
    requires CurrentExists(s.data) && SelectionValid(s)
    ensures CurrentExists(Step(s, c).data) && SelectionValid(Step(s, c))
  {
    match c
    case AddProfileCmd(name, pid, fid, now) =>
      KeepsFoldersKeepsValidity(s.data, Step(s, c).data, s.selectedFolderId);
    case RenameProfileCmd(pid, name, now) =>
      KeepsFoldersKeepsValidity(s.data, Step(s, c).data, s.selectedFolderId);
    case AddFolderCmd(name, fid, now) =>
      KeepsFoldersKeepsValidity(s.data, Step(s, c).data, s.selectedFolderId);
    case RenameFolderCmd(fid, name, now) =>
      KeepsFoldersKeepsValidity(s.data, Step(s, c).data, s.selectedFolderId);
    case AddSecretCmd(fid, input, sid, now) =>
      ChangesOnlyFolderKeepsFolders(s.data, Step(s, c).data, fid, now);
      KeepsFoldersKeepsValidity(s.data, Step(s, c).data, s.selectedFolderId);
    case UpdateSecretCmd(fid, sid, patch, now) =>
      ChangesOnlyFolderKeepsFolders(s.data, Step(s, c).data, fid, now);
      KeepsFoldersKeepsValidity(s.data, Step(s, c).data, s.selectedFolderId);
    case DeleteSecretCmd(fid, sid, now) =>
      ChangesOnlyFolderKeepsFolders(s.data, Step(s, c).data, fid, now);
      KeepsFoldersKeepsValidity(s.data, Step(s, c).data, s.selectedFolderId);
    case _ =>
  }

  /** After any sequence of editing operations from a valid state, `currentProfileId` names an
      existing profile and the selection is the placeholder or a folder of the current profile. */
  lemma {:induction false} RunKeepsValidity(s: Session, cs: seq<Command>)
    requires CurrentExists(s.data) && SelectionValid(s)
    ensures CurrentExists(Run(s, cs).data) && SelectionValid(Run(s, cs))
    decreases |cs|
  {
    if cs != [] {
      StepKeepsValidity(s, cs[0]);
      RunKeepsValidity(Step(s, cs[0]), cs[1..]);
    }
  }
}
