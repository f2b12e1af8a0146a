/** `handleImportAllSecrets`, `handleImportV1`, `handleImportAll` and `handleImportProfile`:
    the root document each of them writes to storage, or None where it fails. */
module Imports {
  import opened Wrappers
  import opened JsonValues
  import opened Model
  import opened Schema
  import opened StoreData

  /** `a || now` on a timestamp. */
  function OrNow(a: string, now: string): string {
    if a != [] then a else now
  }

  /** Gives every profile a creation and update time, taking `now` where one is missing. */
  function Backfill(ps: seq<Profile>, now: string): (r: seq<Profile>)
    ensures |r| == |ps|
    ensures forall i :: 0 <= i < |ps| ==>
              r[i] == ps[i].(createdAt := OrNow(ps[i].createdAt, now), updatedAt := OrNow(ps[i].updatedAt, now))
  {
    seq(|ps|, i requires 0 <= i < |ps| =>
      ps[i].(createdAt := OrNow(ps[i].createdAt, now), updatedAt := OrNow(ps[i].updatedAt, now)))
  }

  /** The payload as a root document, if it is one. */
  function AsRoot(input: JsonText): Option<SecretsData> {
    if input.Unparsable? then None else DecodeRoot(input.value)
  }

  /** `handleImportAllSecrets(data)`: a root document with at least one profile replaces
      what is stored, with `currentProfileId` repaired and timestamps backfilled. */
  function ImportAllSecrets(input: JsonText, now: string): (r: Option<SecretsData>)
    ensures r.None? <==> AsRoot(input).None? || AsRoot(input).value.profiles == []
    ensures r.Some? ==>
              var d := AsRoot(input).value;
              |r.value.profiles| == |d.profiles|
              && (forall i :: 0 <= i < |d.profiles| ==>
                    r.value.profiles[i].id == d.profiles[i].id && r.value.profiles[i].name == d.profiles[i].name
                    && r.value.profiles[i].folders == d.profiles[i].folders
                    && r.value.profiles[i].createdAt == OrNow(d.profiles[i].createdAt, now)
                    && r.value.profiles[i].updatedAt == OrNow(d.profiles[i].updatedAt, now))
              && r.value.currentProfileId == (if CurrentExists(d) then d.currentProfileId else d.profiles[0].id)
              && CurrentExists(r.value)
    ensures r.Some? && now != [] ==>
              forall i :: 0 <= i < |r.value.profiles| ==> r.value.profiles[i].createdAt != [] && r.value.profiles[i].updatedAt != []
  {
    match AsRoot(input)
    case None => None
    case Some(d) =>
      if d.profiles == [] then None
      else
        var normalized := if CurrentExists(d) then d else d.(currentProfileId := d.profiles[0].id);
        var r := normalized.(profiles := Backfill(normalized.profiles, now));
        assert CurrentExists(r) by {
          var k := ProfileIndex(normalized.profiles, normalized.currentProfileId);
          assert r.profiles[k].id == r.currentProfileId;
        }
        Some(r)
  }

  /** What `handleImportV1` merges into: the stored root, or an empty one when nothing is stored. */
  function V1Base(stored: Option<JsonText>): Option<SecretsData> {
    if stored.None? then Some(SecretsData([], []))
    else if stored.value.Unparsable? then None
    else DecodeRoot(stored.value.value)
  }

  /** `handleImportV1(data)`: a legacy folder bundle becomes one more profile named "Imported",
      with the fresh id `newId`; it becomes current only when no current id is stored. */
  function ImportV1(input: JsonText, stored: Option<JsonText>, newId: string, now: string): (r: Option<SecretsData>)
    ensures r.None? <==> input.Unparsable? || DecodeBundle(input.value).None? || V1Base(stored).None?
    ensures r.Some? ==>
              var b, fs := V1Base(stored).value, DecodeBundle(input.value).value;
              |r.value.profiles| == |b.profiles| + 1 && r.value.profiles[..|b.profiles|] == b.profiles
              && r.value.profiles[|b.profiles|] == Profile(newId, "Imported", fs, now, now)
              && r.value.currentProfileId == (if b.currentProfileId != [] then b.currentProfileId else newId)
    ensures r.Some? && (V1Base(stored).value.currentProfileId == [] || CurrentExists(V1Base(stored).value))
            ==> CurrentExists(r.value)
  {
    if input.Unparsable? then None
    else
      match DecodeBundle(input.value)
      case None => None
      case Some(fs) =>
        match V1Base(stored)
        case None => None
        case Some(b) =>
          var p := Profile(newId, "Imported", fs, now, now);
          var r := SecretsData(b.profiles + [p], if b.currentProfileId != [] then b.currentProfileId else newId);
          assert r.profiles[|b.profiles|] == p;
          assert CurrentExists(b) ==> CurrentExists(r) by {
            if CurrentExists(b) {
              var i :| 0 <= i < |b.profiles| && b.profiles[i].id == b.currentProfileId;
              assert r.profiles[i] == b.profiles[i];
            }
          }
          Some(r)
  }

  /** `handleImportAll(data)`: the full-root import, and the legacy import only when that fails;
      None where it throws. */
  function ImportAll(input: JsonText, stored: Option<JsonText>, newId: string, now: string): (r: Option<SecretsData>)
    ensures r.None? <==> ImportAllSecrets(input, now).None? && ImportV1(input, stored, newId, now).None?
    ensures ImportAllSecrets(input, now).Some? ==> r == ImportAllSecrets(input, now)
    ensures ImportAllSecrets(input, now).None? ==> r == ImportV1(input, stored, newId, now)
  {
    var full := ImportAllSecrets(input, now);
    if full.Some? then full else ImportV1(input, stored, newId, now)
  }

  /** Some profile is named `name` (case-sensitive). */
  predicate HasProfileNamed(ps: seq<Profile>, name: string) {
    exists i :: 0 <= i < |ps| && ps[i].name == name
  }

  /** What `handleImportProfile` merges into; `getLocalStorage() || "{}"` makes an empty
      store a document without profiles, which the root check refuses. */
  function ProfileBase(stored: Option<JsonText>): Option<SecretsData> {
    if stored.None? then DecodeRoot(JObj(map[]))
    else if stored.value.Unparsable? then None
    else DecodeRoot(stored.value.value)
  }

  /** The profile `handleImportProfile` appends: as imported without a collision; otherwise with
      the fresh id `newId`, fresh timestamps and, when the name collides, the date suffix. */
  function Incoming(ps: seq<Profile>, p: Profile, newId: string, now: string, today: string): (q: Profile)
    ensures q.folders == p.folders
    ensures !HasProfile(ps, p.id) && !HasProfileNamed(ps, p.name) ==> q == p
    ensures HasProfile(ps, p.id) || HasProfileNamed(ps, p.name) ==>
              q.id == newId && q.createdAt == now && q.updatedAt == now
              && q.name == (if HasProfileNamed(ps, p.name) then p.name + " (Imported " + today + ")" else p.name)
  {
    var byId := HasProfile(ps, p.id);
    var byName := HasProfileNamed(ps, p.name);
    if byId || byName then
      p.(id := newId, name := if byName then p.name + " (Imported " + today + ")" else p.name,
         createdAt := now, updatedAt := now)
    else p
  }

  /** `handleImportProfile(data)`: appends the imported profile to the stored root; None where it
      throws. `today` stands for `new Date().toLocaleDateString()`. */
  function ImportProfile(input: JsonText, stored: Option<JsonText>, newId: string, now: string, today: string): (r: Option<SecretsData>)
    ensures stored.None? ==> r.None?
    ensures r.None? <==> input.Unparsable? || DecodeProfile(input.value).None? || ProfileBase(stored).None?
    ensures r.Some? ==>
              var b, p := ProfileBase(stored).value, DecodeProfile(input.value).value;
              r.value.currentProfileId == b.currentProfileId
              && |r.value.profiles| == |b.profiles| + 1 && r.value.profiles[..|b.profiles|] == b.profiles
              && r.value.profiles[|b.profiles|] == Incoming(b.profiles, p, newId, now, today)
    ensures r.Some? && CurrentExists(ProfileBase(stored).value) ==> CurrentExists(r.value)
  {
    if input.Unparsable? then None
    else
      match DecodeProfile(input.value)
      case None => None
      case Some(p) =>
        match ProfileBase(stored)
        case None => None
        case Some(b) =>
          var r := b.(profiles := b.profiles + [Incoming(b.profiles, p, newId, now, today)]);
          assert CurrentExists(b) ==> CurrentExists(r) by {
            if CurrentExists(b) {
              var i :| 0 <= i < |b.profiles| && b.profiles[i].id == b.currentProfileId;
              assert r.profiles[i] == b.profiles[i];
            }
          }
          Some(r)
  }

  /** Exporting every profile and importing the file back restores the data when it is already
      normalised: a current profile that exists and timestamps that are present. */
  lemma ExportAllImportAll(d: SecretsData, stored: Option<JsonText>, newId: string, now: string)
    requires d.profiles != [] && CurrentExists(d)
    requires forall i :: 0 <= i < |d.profiles| ==> d.profiles[i].createdAt != [] && d.profiles[i].updatedAt != []
    ensures ImportAll(Parsed(EncodeRoot(d)), stored, newId, now) == Some(d)
  {
    RootRoundTrip(d);
    var r := ImportAllSecrets(Parsed(EncodeRoot(d)), now).value;
    assert r.profiles == d.profiles;
  }

  /** A legacy bundle is never taken for a root document, so it is imported as a new profile. */
  lemma BundleImportsAsProfile(fs: seq<Folder>, d: SecretsData, newId: string, now: string)
    ensures ImportAll(Parsed(EncodeBundle(fs)), Saved(d), newId, now)
            == Some(SecretsData(d.profiles + [Profile(newId, "Imported", fs, now, now)],
                                if d.currentProfileId != [] then d.currentProfileId else newId))
  {
    BundleRoundTrip(fs);
    RootRoundTrip(d);
    var r := ImportV1(Parsed(EncodeBundle(fs)), Saved(d), newId, now).value;
    assert r.profiles == d.profiles + [Profile(newId, "Imported", fs, now, now)];
  }

  /** Exporting a profile and importing it into any saved state appends one profile with exactly
      the exported folders and secrets, leaving the existing profiles untouched. */
  lemma ExportProfileImportProfile(p: Profile, d: SecretsData, newId: string, now: string, today: string)
    ensures var r := ImportProfile(Parsed(EncodeProfile(p)), Saved(d), newId, now, today);
            r.Some? && r.value.currentProfileId == d.currentProfileId
            && |r.value.profiles| == |d.profiles| + 1 && r.value.profiles[..|d.profiles|] == d.profiles
            && r.value.profiles[|d.profiles|].folders == p.folders
            && (!HasProfile(d.profiles, p.id) && !HasProfileNamed(d.profiles, p.name) ==> r.value.profiles[|d.profiles|] == p)
  {
    ProfileRoundTrip(p);
    RootRoundTrip(d);
  }

  /** Importing a profile whose name an existing profile already has appends a copy with the fresh
      id, fresh timestamps and the name with the date suffix, and leaves the existing profiles. */
  lemma DuplicateNameImport(d: SecretsData, imported: Profile, newId: string, now: string, today: string)
    requires HasProfileNamed(d.profiles, imported.name)
    ensures var r := ImportProfile(Parsed(EncodeProfile(imported)), Saved(d), newId, now, today);
            r.Some? && |r.value.profiles| == |d.profiles| + 1 && r.value.profiles[..|d.profiles|] == d.profiles
            && r.value.profiles[|d.profiles|]
               == imported.(id := newId, name := imported.name + " (Imported " + today + ")", createdAt := now, updatedAt := now)
  {
    ExportProfileImportProfile(imported, d, newId, now, today);
  }
}
