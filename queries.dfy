/** The store's two queries, `getFilteredSecrets` and `getAllTags`, over a state. */
module Queries {
  import opened Wrappers
  import opened Model
  import opened Seqs
  import opened Strings
  import opened StoreData

  /** The search test of `getFilteredSecrets`: an empty term, or the term, case-insensitively,
      inside the name, the value or a non-empty description. */
  predicate MatchesSearch(s: Secret, term: string) {
    term == []
    || Contains(Lower(s.name), Lower(term))
    || Contains(Lower(s.value), Lower(term))
    || (s.description != [] && Contains(Lower(s.description), Lower(term)))
  }

  /** The tag test of `getFilteredSecrets`: the secret carries every selected tag. */
  predicate MatchesTags(s: Secret, tags: seq<string>) {
    forall t :: t in tags ==> t in s.tags
  }

  /** The folder `selectedFolderId` names in the current profile. */
  function SelectedFolder(d: SecretsData, selected: string): (r: Option<Folder>)
    ensures r.None? <==> !CurrentExists(d) || !HasFolder(CurrentProfile(d).value.folders, selected)
    ensures r.Some? ==> r.value.id == selected && r.value in CurrentProfile(d).value.folders
  {
    match CurrentProfile(d)
    case None => None
    case Some(p) => FindFolder(p.folders, selected)
  }

  /** `getFilteredSecrets()`. */
  function FilteredSecrets(d: SecretsData, selected: string, term: string, tags: seq<string>): (r: seq<Secret>)
    ensures !CurrentExists(d) ==> r == []
    ensures SelectedFolder(d, selected).None? ==> r == []
    ensures SelectedFolder(d, selected).Some? ==>
              var ss := SelectedFolder(d, selected).value.secrets;
              IsSubsequence(r, ss)
              && (forall x :: x in r <==> x in ss && MatchesSearch(x, term) && MatchesTags(x, tags))
              && (forall x :: multiset(r)[x] == if MatchesSearch(x, term) && MatchesTags(x, tags) then multiset(ss)[x] else 0)
              && (term == [] && tags == [] ==> r == ss)
  {
    match SelectedFolder(d, selected)
    case None => []
    case Some(f) =>
      FilterCount(f.secrets, (x: Secret) => MatchesSearch(x, term) && MatchesTags(x, tags));
      Filter(f.secrets, (x: Secret) => MatchesSearch(x, term) && MatchesTags(x, tags))
  }

  function TagSet(tags: seq<string>): (r: set<string>)
    ensures forall t :: t in r <==> t in tags
  {
    set t | t in tags
  }

  /** The tags of a list of secrets. */
  function SecretsTags(ss: seq<Secret>): (r: set<string>)
    ensures forall t :: t in r <==> exists k :: 0 <= k < |ss| && t in ss[k].tags
  {
    if ss == [] then {}
    else
      var init := ss[..|ss| - 1];
      var r := SecretsTags(init) + TagSet(ss[|ss| - 1].tags);
      assert forall k :: 0 <= k < |init| ==> init[k] == ss[k];
      r
  }

  /** The tags of every secret of every folder in a list. */
  function FoldersTags(fs: seq<Folder>): (r: set<string>)
    ensures forall t :: t in r <==>
              exists j, k :: 0 <= j < |fs| && 0 <= k < |fs[j].secrets| && t in fs[j].secrets[k].tags
  {
    if fs == [] then {}
    else
      var init := fs[..|fs| - 1];
      var r := FoldersTags(init) + SecretsTags(fs[|fs| - 1].secrets);
      assert forall j :: 0 <= j < |init| ==> init[j] == fs[j];
      r
  }

  lemma TagSetSnoc(ts: seq<string>, m: nat)
    requires m < |ts|
    ensures TagSet(ts[..m + 1]) == TagSet(ts[..m]) + {ts[m]}
  {
    assert ts[..m + 1] == ts[..m] + [ts[m]];
  }

  lemma SecretsTagsSnoc(ss: seq<Secret>, k: nat)
    requires k < |ss|
    ensures SecretsTags(ss[..k + 1]) == SecretsTags(ss[..k]) + TagSet(ss[k].tags)
  {
    assert ss[..k + 1][..k] == ss[..k];
  }

  lemma FoldersTagsSnoc(fs: seq<Folder>, j: nat)
    requires j < |fs|
    ensures FoldersTags(fs[..j + 1]) == FoldersTags(fs[..j]) + SecretsTags(fs[j].secrets)
  {
    assert fs[..j + 1][..j] == fs[..j];
  }

  /** `getAllTags()`: the tags used in the current profile, each once, in increasing order. */
  function AllTags(d: SecretsData): (r: seq<string>)
    ensures StrictlySorted(r)
    ensures !CurrentExists(d) ==> r == []
    ensures CurrentExists(d) ==>
              var fs := CurrentProfile(d).value.folders;
              forall t :: t in r <==> exists j, k :: 0 <= j < |fs| && 0 <= k < |fs[j].secrets| && t in fs[j].secrets[k].tags
  {
    match CurrentProfile(d)
    case None => []
    case Some(p) => SortedElements(FoldersTags(p.folders))
  }
}
