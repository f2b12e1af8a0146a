/** `createDefaultProfile`, `defaultData` and `migrateOldData`. */
module Migration {
  import opened Wrappers
  import opened JsonValues
  import opened Model
  import opened Schema

  /** The profile created when nothing is stored; `now` is the time the module was loaded. */
  function DefaultProfile(now: string): Profile {
    Profile("default", "Default", [Folder("default", "Default", [])], now, now)
  }

  function DefaultData(now: string): (r: SecretsData)
    ensures |r.profiles| == 1 && r.profiles[0].id == r.currentProfileId
  {
    SecretsData([DefaultProfile(now)], "default")
  }

  /** The profile object `migrateOldData` builds around legacy folders. */
  function WrappedProfile(folders: Json, now: string): Json {
    JObj(map[
      "id" := JStr("default"), "name" := JStr("Default"), "folders" := folders,
      "createdAt" := JStr(now), "updatedAt" := JStr(now)])
  }

  /** The profile-aware document built around a legacy `folders` value. */
  function LegacyWrapped(folders: Json, now: string): Json {
    JObj(map["profiles" := JArr([WrappedProfile(folders, now)]), "currentProfileId" := JStr("default")])
  }

  /** `migrateOldData(stored)`: None where it throws (text that is not JSON, or `null`). */
  function MigrateOldData(stored: JsonText, now: string, defaults: SecretsData): (r: Option<Json>)
    ensures r.None? <==> stored.Unparsable? || stored.value.JNull?
    ensures r.Some? && TruthyOpt(Prop(stored.value, "profiles")) ==> r.value == stored.value
    ensures (r.Some? && !TruthyOpt(Prop(stored.value, "profiles")) && !TruthyOpt(Prop(stored.value, "folders")))
            ==> r.value == EncodeRoot(defaults)
  {
    if stored.Unparsable? || stored.value.JNull? then None
    else
      var parsed := stored.value;
      var folders := Prop(parsed, "folders");
      var profiles := Prop(parsed, "profiles");
      if TruthyOpt(folders) && !TruthyOpt(profiles) then Some(LegacyWrapped(folders.value, now))
      else if TruthyOpt(profiles) then Some(parsed)
      else Some(EncodeRoot(defaults))
  }

  /** The profile object reads back as the default profile with those folders. */
  lemma DecodeWrappedProfile(items: seq<Json>, fs: seq<Folder>, now: string)
    requires DecodeFolders(items) == Some(fs)
    ensures DecodeProfile(WrappedProfile(JArr(items), now)) == Some(Profile("default", "Default", fs, now, now))
  {
    var m := WrappedProfile(JArr(items), now).fields;
    assert StrField(m, "id") == Some("default");
    assert StrField(m, "name") == Some("Default");
    assert ArrField(m, "folders") == Some(items);
    assert OptStrField(m, "createdAt") == Some(now);
    assert OptStrField(m, "updatedAt") == Some(now);
  }

  /** The wrapped document reads back as one default profile holding the folders, current. */
  lemma DecodeWrapped(items: seq<Json>, fs: seq<Folder>, now: string)
    requires DecodeFolders(items) == Some(fs)
    ensures DecodeRoot(LegacyWrapped(JArr(items), now)) == Some(SecretsData([Profile("default", "Default", fs, now, now)], "default"))
  {
    var pj := WrappedProfile(JArr(items), now);
    DecodeWrappedProfile(items, fs, now);
    var p := Profile("default", "Default", fs, now, now);
    assert [pj][1..] == [] && DecodeProfiles([]) == Some([]);
    assert [p] + [] == [p];
    assert DecodeProfiles([pj]) == Some([p]);
  }

  /** A legacy document becomes one profile with id "default", name "Default" and the same
      folders, and it is the current profile. */
  lemma MigrateLegacy(m: map<string, Json>, items: seq<Json>, fs: seq<Folder>, now: string, defaults: SecretsData)
    requires "folders" in m && m["folders"] == JArr(items)
    requires !TruthyOpt(Prop(JObj(m), "profiles"))
    requires DecodeFolders(items) == Some(fs)
    ensures var r := MigrateOldData(Parsed(JObj(m)), now, defaults);
            r.Some? && DecodeRoot(r.value) == Some(SecretsData([Profile("default", "Default", fs, now, now)], "default"))
  {
    assert MigrateOldData(Parsed(JObj(m)), now, defaults) == Some(LegacyWrapped(JArr(items), now));
    DecodeWrapped(items, fs, now);
  }

  /** `{ folders: [...] }` as the app once wrote it migrates to a single default profile. */
  lemma MigrateLegacyBundle(fs: seq<Folder>, now: string, defaults: SecretsData)
    ensures var r := MigrateOldData(Parsed(EncodeBundle(fs)), now, defaults);
            r.Some? && DecodeRoot(r.value) == Some(SecretsData([Profile("default", "Default", fs, now, now)], "default"))
  {
    FoldersRoundTrip(fs);
    MigrateLegacy(EncodeBundle(fs).fields, EncodeFolders(fs), fs, now, defaults);
  }

  /** A document in the current shape is returned unchanged, even with no profiles. */
  lemma MigrateSavedRoot(d: SecretsData, now: string, defaults: SecretsData)
    ensures MigrateOldData(Parsed(EncodeRoot(d)), now, defaults) == Some(EncodeRoot(d))
  {
  }

  /** Migrating a migrated document changes nothing more. */
  lemma MigrateIdempotent(stored: JsonText, now: string, later: string, defaults: SecretsData)
    requires MigrateOldData(stored, now, defaults).Some?
    ensures var m := MigrateOldData(stored, now, defaults).value;
            MigrateOldData(Parsed(m), later, defaults) == Some(m)
  {
  }
}
