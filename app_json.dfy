/** `parseToAppJSON`: the structural test a legacy folder bundle must pass. */
module AppJson {
  import opened Wrappers
  import opened JsonValues
  import opened Model
  import opened Schema

  /** The parsed document when it has a truthy `folders` whose first element has a
      truthy `id` and a truthy `secrets`; None where the source returns `null`
      (including for text that is not JSON and for `null`, whose property access throws). */
  function ParseToAppJson(text: JsonText): (r: Option<Json>)
    ensures text.Unparsable? ==> r.None?
    ensures r.Some? ==> text == Parsed(r.value)
    ensures text.Parsed? && !TruthyOpt(Prop(text.value, "folders")) ==> r.None?
    ensures text.Parsed? && Prop(text.value, "folders") == Some(JArr([])) ==> r.None?
    ensures (text.Parsed? && TruthyOpt(Prop(text.value, "folders"))
             && !TruthyOpt(PropOf(Index0(Prop(text.value, "folders").value), "id"))) ==> r.None?
    ensures (text.Parsed? && TruthyOpt(Prop(text.value, "folders"))
             && !TruthyOpt(PropOf(Index0(Prop(text.value, "folders").value), "secrets"))) ==> r.None?
    ensures r.Some? <==> text.Parsed? && TruthyOpt(Prop(text.value, "folders"))
                         && TruthyOpt(PropOf(Index0(Prop(text.value, "folders").value), "id"))
                         && TruthyOpt(PropOf(Index0(Prop(text.value, "folders").value), "secrets"))
  {
    if text.Unparsable? then None
    else
      var j := text.value;
      if j.JNull? then None
      else
        var folders := Prop(j, "folders");
        if !TruthyOpt(folders) then None
        else
          var first := Index0(folders.value);
          if !TruthyOpt(PropOf(first, "id")) then None
          else if !TruthyOpt(PropOf(first, "secrets")) then None
          else Some(j)
  }

  /** Only the first folder is inspected: two documents whose `folders` arrays start
      with the same element get the same verdict, whatever follows it. */
  lemma OnlyFirstFolderInspected(m1: map<string, Json>, m2: map<string, Json>, first: Json, rest1: seq<Json>, rest2: seq<Json>)
    requires "folders" in m1 && m1["folders"] == JArr([first] + rest1)
    requires "folders" in m2 && m2["folders"] == JArr([first] + rest2)
    ensures ParseToAppJson(Parsed(JObj(m1))).Some? == ParseToAppJson(Parsed(JObj(m2))).Some?
  {
    assert ([first] + rest1)[0] == first && ([first] + rest2)[0] == first;
  }

  /** A bundle the app itself would write passes when its first folder has a non-empty id. */
  lemma AcceptsWrittenBundle(fs: seq<Folder>)
    requires fs != [] && fs[0].id != []
    ensures ParseToAppJson(Parsed(EncodeBundle(fs))) == Some(EncodeBundle(fs))
  {
    assert EncodeFolders(fs)[0] == EncodeFolder(fs[0]);
  }
}
