/** The profile settings dialog: the checks done before `addProfile`, `deleteProfile` and
    `renameProfile` are called, and the secret count shown for each profile. */
module ProfileGuards {
  import opened Wrappers
  import opened Model
  import opened Strings
  import opened StoreData

  /** Some profile's name equals `name`, ignoring case. */
  predicate NameTaken(ps: seq<Profile>, name: string) {
    exists i :: 0 <= i < |ps| && Lower(ps[i].name) == Lower(name)
  }

  /** Some profile other than `id` has the name `name`, ignoring case. */
  predicate NameTakenByOther(ps: seq<Profile>, id: string, name: string) {
    exists i :: 0 <= i < |ps| && ps[i].id != id && Lower(ps[i].name) == Lower(name)
  }

  /** `handleAddProfile()`: the name `addProfile` receives, or None where a toast refuses it. */
  function AddProfileName(ps: seq<Profile>, input: string): (r: Option<string>)
    ensures r.None? <==> Trim(input) == [] || NameTaken(ps, Trim(input))
    ensures r.Some? ==> r.value == Trim(input) && r.value != [] && IsTrimmed(r.value)
  {
    var name := Trim(input);
    if name == [] || NameTaken(ps, name) then None else Some(name)
  }

  /** `handleRenameProfile(profileId)`: the name `renameProfile` receives, or None where a toast
      refuses it; the profile's own name does not count as taken. */
  function RenameProfileName(ps: seq<Profile>, id: string, input: string): (r: Option<string>)
    ensures r.None? <==> Trim(input) == [] || NameTakenByOther(ps, id, Trim(input))
    ensures r.Some? ==> r.value == Trim(input) && r.value != [] && IsTrimmed(r.value)
  {
    var name := Trim(input);
    if name == [] || NameTakenByOther(ps, id, name) then None else Some(name)
  }

  /** `handleDeleteProfile`: the last profile cannot be deleted. */
  predicate MayDeleteProfile(ps: seq<Profile>) {
    |ps| > 1
  }

  /** No two profiles share a name, ignoring case. */
  predicate DistinctNames(ps: seq<Profile>) {
    forall i, j :: 0 <= i < j < |ps| ==> Lower(ps[i].name) != Lower(ps[j].name)
  }

  /** A profile added through the dialog keeps the profile names distinct. */
  lemma AddKeepsNamesDistinct(d: SecretsData, input: string, profileId: string, folderId: string, now: string)
    requires DistinctNames(d.profiles)
    requires AddProfileName(d.profiles, input).Some?
    ensures DistinctNames(StoreData.AddProfile(d, AddProfileName(d.profiles, input).value, profileId, folderId, now).profiles)
  {
    var name := AddProfileName(d.profiles, input).value;
    var r := StoreData.AddProfile(d, name, profileId, folderId, now);
    var n := |d.profiles|;
    forall i, j | 0 <= i < j < |r.profiles| ensures Lower(r.profiles[i].name) != Lower(r.profiles[j].name) {
      assert r.profiles[i] == d.profiles[i];
      if j < n {
        assert r.profiles[j] == d.profiles[j];
      } else {
        assert r.profiles[j].name == name;
      }
    }
  }

  /** A rename through the dialog keeps the profile names distinct, when ids are unique. */
  lemma RenameKeepsNamesDistinct(d: SecretsData, id: string, input: string, now: string)
    requires DistinctNames(d.profiles) && UniqueProfileIds(d.profiles)
    requires RenameProfileName(d.profiles, id, input).Some?
    ensures DistinctNames(StoreData.RenameProfile(d, id, RenameProfileName(d.profiles, id, input).value, now).profiles)
  {
    var name := RenameProfileName(d.profiles, id, input).value;
    var r := StoreData.RenameProfile(d, id, name, now);
    forall i, j | 0 <= i < j < |r.profiles| ensures Lower(r.profiles[i].name) != Lower(r.profiles[j].name) {
      if d.profiles[i].id == id {
        assert d.profiles[j].id != id;
        assert !(d.profiles[j].id != id && Lower(d.profiles[j].name) == Lower(name));
      } else if d.profiles[j].id == id {
        assert !(d.profiles[i].id != id && Lower(d.profiles[i].name) == Lower(name));
      }
    }
  }

  /** Renaming a profile to its own name in another case is accepted, while adding a profile
      under that name is refused. */
  lemma OwnNameInOtherCase(ps: seq<Profile>, k: nat, input: string)
    requires DistinctNames(ps) && UniqueProfileIds(ps)
    requires k < |ps| && Trim(input) != [] && Lower(Trim(input)) == Lower(ps[k].name)
    ensures RenameProfileName(ps, ps[k].id, input) == Some(Trim(input))
    ensures AddProfileName(ps, input).None?
  {
    var name := Trim(input);
    forall i | 0 <= i < |ps| && ps[i].id != ps[k].id ensures Lower(ps[i].name) != Lower(name) {
      assert i != k;
    }
  }

  /** When the dialog allows a deletion and the current profile exists, a profile remains. */
  lemma DeleteLeavesAProfile(s: Session, profileId: string)
    requires MayDeleteProfile(s.data.profiles) && CurrentExists(s.data)
    ensures StoreData.DeleteProfile(s, profileId).data.profiles != []
  {
  }

  /** `folders.reduce((acc, folder) => acc + folder.secrets.length, 0)`. */
  function FoldersSecretCount(fs: seq<Folder>): nat {
    if fs == [] then 0 else FoldersSecretCount(fs[..|fs| - 1]) + |fs[|fs| - 1].secrets|
  }

  /** The count the dialog shows for a profile. */
  function SecretCount(p: Profile): nat {
    FoldersSecretCount(p.folders)
  }

  /** The count of a concatenation is the sum of the counts. */
  lemma {:induction false} CountAppend(a: seq<Folder>, b: seq<Folder>)
    ensures FoldersSecretCount(a + b) == FoldersSecretCount(a) + FoldersSecretCount(b)
  {
    if b != [] {
      assert (a + b)[..|a + b| - 1] == a + b[..|b| - 1];
      CountAppend(a, b[..|b| - 1]);
    } else {
      assert a + b == a;
    }
  }

  /** Each folder contributes its own number of secrets. */
  lemma CountSplit(fs: seq<Folder>, j: nat)
    requires j < |fs|
    ensures FoldersSecretCount(fs) == FoldersSecretCount(fs[..j]) + |fs[j].secrets| + FoldersSecretCount(fs[j + 1..])
  {
    assert fs == fs[..j] + [fs[j]] + fs[j + 1..];
    CountAppend(fs[..j] + [fs[j]], fs[j + 1..]);
    CountAppend(fs[..j], [fs[j]]);
    assert [fs[j]][..0] == [];
  }

  /** Replacing one folder's secrets changes the count by the difference in their numbers. */
  lemma CountAfterReplace(fs: seq<Folder>, j: nat, ss: seq<Secret>)
    requires j < |fs|
    ensures FoldersSecretCount(fs[j := fs[j].(secrets := ss)]) + |fs[j].secrets| == FoldersSecretCount(fs) + |ss|
  {
    var gs := fs[j := fs[j].(secrets := ss)];
    CountSplit(fs, j);
    CountSplit(gs, j);
    assert gs[..j] == fs[..j] && gs[j + 1..] == fs[j + 1..];
  }

  /** Adding a folder leaves the count as it was; an empty folder holds no secret. */
  lemma CountAfterNewFolder(fs: seq<Folder>, f: Folder)
    requires f.secrets == []
    ensures FoldersSecretCount(fs + [f]) == FoldersSecretCount(fs)
  {
    assert (fs + [f])[..|fs|] == fs;
  }

  /** No two folders of a list share an id. */
  predicate UniqueFolderIds(fs: seq<Folder>) {
    forall i, j :: 0 <= i < j < |fs| ==> fs[i].id != fs[j].id
  }

  /** `addSecret` into an existing folder of the current profile, whose folder ids are unique,
      raises that profile's secret count by one. */
  lemma AddSecretCount(d: SecretsData, k: nat, j: nat, input: SecretInput, secretId: string, now: string)
    requires k < |d.profiles| && d.profiles[k].id == d.currentProfileId
    requires j < |d.profiles[k].folders| && UniqueFolderIds(d.profiles[k].folders)
    ensures var r := StoreData.AddSecret(d, d.profiles[k].folders[j].id, input, secretId, now);
            SecretCount(r.profiles[k]) == SecretCount(d.profiles[k]) + 1
  {
    var fs := d.profiles[k].folders;
    var folderId := fs[j].id;
    var r := StoreData.AddSecret(d, folderId, input, secretId, now);
    var ss := fs[j].secrets + [NewSecret(input, secretId, now)];
    assert r.profiles[k].folders == fs[j := fs[j].(secrets := ss)] by {
      forall m | 0 <= m < |fs| ensures r.profiles[k].folders[m] == fs[j := fs[j].(secrets := ss)][m] {
        if m != j {
          assert fs[m].id != folderId;
        }
      }
    }
    CountAfterReplace(fs, j, ss);
  }
}
