/** The structural checks the store applies to parsed JSON (`secretsDataSchema`,
    `profileZodSchema`, `importSchemaV1`) and `JSON.stringify` of the entities.
    A check accepts an object that has every required field with the right type,
    ignores extra fields, and reads an absent optional string as "". */
module Schema {
  import opened Wrappers
  import opened JsonValues
  import opened Model

  /** A required string field. */
  function StrField(m: map<string, Json>, key: string): Option<string> {
    if key in m && m[key].JStr? then Some(m[key].s) else None
  }

  /** An optional string field. */
  function OptStrField(m: map<string, Json>, key: string): Option<string> {
    if key !in m then Some([])
    else if m[key].JStr? then Some(m[key].s)
    else None
  }

  /** A required array field. */
  function ArrField(m: map<string, Json>, key: string): Option<seq<Json>> {
    if key in m && m[key].JArr? then Some(m[key].items) else None
  }

  function DecodeStrings(items: seq<Json>): (r: Option<seq<string>>)
    ensures r.Some? ==> |r.value| == |items|
  {
    if items == [] then Some([])
    else if items[0].JStr? then
      match DecodeStrings(items[1..])
      case Some(rest) => Some([items[0].s] + rest)
      case None => None
    else None
  }

  function DecodeSecret(j: Json): Option<Secret> {
    if !j.JObj? then None
    else
      var m := j.fields;
      var id, name, value := StrField(m, "id"), StrField(m, "name"), StrField(m, "value");
      var tags := if ArrField(m, "tags").Some? then DecodeStrings(ArrField(m, "tags").value) else None;
      var description := OptStrField(m, "description");
      var createdAt, updatedAt := StrField(m, "createdAt"), StrField(m, "updatedAt");
      if id.Some? && name.Some? && value.Some? && tags.Some? && description.Some? && createdAt.Some? && updatedAt.Some?
      then Some(Secret(id.value, name.value, value.value, tags.value, description.value, createdAt.value, updatedAt.value))
      else None
  }

  function DecodeSecrets(items: seq<Json>): (r: Option<seq<Secret>>)
    ensures r.Some? ==> |r.value| == |items|
  {
    if items == [] then Some([])
    else
      match (DecodeSecret(items[0]), DecodeSecrets(items[1..]))
      case (Some(s), Some(rest)) => Some([s] + rest)
      case _ => None
  }

  function DecodeFolder(j: Json): Option<Folder> {
    if !j.JObj? then None
    else
      var m := j.fields;
      var id, name := StrField(m, "id"), StrField(m, "name");
      var secrets := if ArrField(m, "secrets").Some? then DecodeSecrets(ArrField(m, "secrets").value) else None;
      if id.Some? && name.Some? && secrets.Some? then Some(Folder(id.value, name.value, secrets.value)) else None
  }

  function DecodeFolders(items: seq<Json>): (r: Option<seq<Folder>>)
    ensures r.Some? ==> |r.value| == |items|
  {
    if items == [] then Some([])
    else
      match (DecodeFolder(items[0]), DecodeFolders(items[1..]))
      case (Some(f), Some(rest)) => Some([f] + rest)
      case _ => None
  }

  /** `profileZodSchema`: `createdAt` and `updatedAt` may be missing. */
  function DecodeProfile(j: Json): Option<Profile> {
    if !j.JObj? then None
    else
      var m := j.fields;
      var id, name := StrField(m, "id"), StrField(m, "name");
      var folders := if ArrField(m, "folders").Some? then DecodeFolders(ArrField(m, "folders").value) else None;
      var createdAt, updatedAt := OptStrField(m, "createdAt"), OptStrField(m, "updatedAt");
      if id.Some? && name.Some? && folders.Some? && createdAt.Some? && updatedAt.Some?
      then Some(Profile(id.value, name.value, folders.value, createdAt.value, updatedAt.value))
      else None
  }

  function DecodeProfiles(items: seq<Json>): (r: Option<seq<Profile>>)
    ensures r.Some? ==> |r.value| == |items|
  {
    if items == [] then Some([])
    else
      match (DecodeProfile(items[0]), DecodeProfiles(items[1..]))
      case (Some(p), Some(rest)) => Some([p] + rest)
      case _ => None
  }

  /** `secretsDataSchema`. */
  function DecodeRoot(j: Json): Option<SecretsData> {
    if !j.JObj? then None
    else
      var m := j.fields;
      var profiles := if ArrField(m, "profiles").Some? then DecodeProfiles(ArrField(m, "profiles").value) else None;
      var current := StrField(m, "currentProfileId");
      if profiles.Some? && current.Some? then Some(SecretsData(profiles.value, current.value)) else None
  }

  /** `importSchemaV1`: a legacy bundle `{ folders: Folder[] }`. */
  function DecodeBundle(j: Json): Option<seq<Folder>> {
    if j.JObj? && ArrField(j.fields, "folders").Some? then DecodeFolders(ArrField(j.fields, "folders").value) else None
  }

  function EncodeStrings(ss: seq<string>): seq<Json> {
    if ss == [] then [] else [JStr(ss[0])] + EncodeStrings(ss[1..])
  }

  function EncodeSecret(s: Secret): Json {
    JObj(map[
      "id" := JStr(s.id), "name" := JStr(s.name), "value" := JStr(s.value),
      "tags" := JArr(EncodeStrings(s.tags)), "description" := JStr(s.description),
      "createdAt" := JStr(s.createdAt), "updatedAt" := JStr(s.updatedAt)])
  }

  function EncodeSecrets(ss: seq<Secret>): seq<Json> {
    if ss == [] then [] else [EncodeSecret(ss[0])] + EncodeSecrets(ss[1..])
  }

  function EncodeFolder(f: Folder): Json {
    JObj(map["id" := JStr(f.id), "name" := JStr(f.name), "secrets" := JArr(EncodeSecrets(f.secrets))])
  }

  function EncodeFolders(fs: seq<Folder>): seq<Json> {
    if fs == [] then [] else [EncodeFolder(fs[0])] + EncodeFolders(fs[1..])
  }

  /** `JSON.stringify(profile)`, as `exportProfile` writes it. */
  function EncodeProfile(p: Profile): Json {
    JObj(map[
      "id" := JStr(p.id), "name" := JStr(p.name), "folders" := JArr(EncodeFolders(p.folders)),
      "createdAt" := JStr(p.createdAt), "updatedAt" := JStr(p.updatedAt)])
  }

  function EncodeProfiles(ps: seq<Profile>): seq<Json> {
    if ps == [] then [] else [EncodeProfile(ps[0])] + EncodeProfiles(ps[1..])
  }

  /** `JSON.stringify(data)`, as `saveData` and `exportAllProfiles` write it. */
  function EncodeRoot(d: SecretsData): Json {
    JObj(map["profiles" := JArr(EncodeProfiles(d.profiles)), "currentProfileId" := JStr(d.currentProfileId)])
  }

  /** `JSON.stringify({ folders })`: a legacy folder bundle. */
  function EncodeBundle(fs: seq<Folder>): Json {
    JObj(map["folders" := JArr(EncodeFolders(fs))])
  }

  lemma {:induction false} StringsRoundTrip(ss: seq<string>)
    ensures DecodeStrings(EncodeStrings(ss)) == Some(ss)
  {
    if ss != [] {
      StringsRoundTrip(ss[1..]);
      assert EncodeStrings(ss)[1..] == EncodeStrings(ss[1..]);
      assert [ss[0]] + ss[1..] == ss;
    }
  }

  lemma SecretRoundTrip(s: Secret)
    ensures DecodeSecret(EncodeSecret(s)) == Some(s)
  {
    StringsRoundTrip(s.tags);
  }

  lemma {:induction false} SecretsRoundTrip(ss: seq<Secret>)
    ensures DecodeSecrets(EncodeSecrets(ss)) == Some(ss)
  {
    if ss != [] {
      SecretRoundTrip(ss[0]);
      SecretsRoundTrip(ss[1..]);
      assert EncodeSecrets(ss)[1..] == EncodeSecrets(ss[1..]);
      assert [ss[0]] + ss[1..] == ss;
    }
  }

  lemma FolderRoundTrip(f: Folder)
    ensures DecodeFolder(EncodeFolder(f)) == Some(f)
  {
    SecretsRoundTrip(f.secrets);
  }

  lemma {:induction false} FoldersRoundTrip(fs: seq<Folder>)
    ensures DecodeFolders(EncodeFolders(fs)) == Some(fs)
  {
    if fs != [] {
      FolderRoundTrip(fs[0]);
      FoldersRoundTrip(fs[1..]);
      assert EncodeFolders(fs)[1..] == EncodeFolders(fs[1..]);
      assert [fs[0]] + fs[1..] == fs;
    }
  }

  /** An exported profile passes the profile check and reads back as itself. */
  lemma ProfileRoundTrip(p: Profile)
    ensures DecodeProfile(EncodeProfile(p)) == Some(p)
  {
    FoldersRoundTrip(p.folders);
  }

  lemma {:induction false} ProfilesRoundTrip(ps: seq<Profile>)
    ensures DecodeProfiles(EncodeProfiles(ps)) == Some(ps)
  {
    if ps != [] {
      ProfileRoundTrip(ps[0]);
      ProfilesRoundTrip(ps[1..]);
      assert EncodeProfiles(ps)[1..] == EncodeProfiles(ps[1..]);
      assert [ps[0]] + ps[1..] == ps;
    }
  }

  /** A saved root document passes the root check and reads back as itself. */
  lemma RootRoundTrip(d: SecretsData)
    ensures DecodeRoot(EncodeRoot(d)) == Some(d)
  {
    ProfilesRoundTrip(d.profiles);
  }

  /** A legacy bundle passes the bundle check and reads back as its folders. */
  lemma BundleRoundTrip(fs: seq<Folder>)
    ensures DecodeBundle(EncodeBundle(fs)) == Some(fs)
  {
    FoldersRoundTrip(fs);
  }

  /** The root check and the bundle check never both accept a document written by the app:
      a saved root has no `folders`, so a full-root import is never mistaken for a bundle. */
  lemma SavedRootIsNoBundle(d: SecretsData)
    ensures DecodeBundle(EncodeRoot(d)).None?
  {
  }
}
