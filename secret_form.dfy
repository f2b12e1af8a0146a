/** The secret dialog: the form prefilled from a secret (or empty), and `handleSave`, which
    refuses a blank name or value and turns the tag field into a list. */
module SecretForm {
  import opened Wrappers
  import opened Model
  import opened Seqs
  import opened Strings
  import opened StoreData

  /** The three text fields of the dialog. */
  datatype Form = Form(name: string, value: string, tags: string)

  /** What `handleSave` hands to `onSave`: exactly a name, a value and tags. */
  datatype Payload = Payload(name: string, value: string, tags: seq<string>)

  /** The dialog's fields when it opens: the secret's name, value and `tags.join(', ')`, or blanks. */
  function Prefill(secret: Option<Secret>): (r: Form)
    ensures secret.None? ==> r == Form([], [], [])
    ensures secret.Some? ==> r.name == secret.value.name && r.value == secret.value.value
                             && r.tags == Join(secret.value.tags, ", ")
  {
    match secret
    case None => Form([], [], [])
    case Some(s) => Form(s.name, s.value, Join(s.tags, ", "))
  }

  /** Every piece, trimmed. */
  function TrimAll(pieces: seq<string>): (r: seq<string>)
    ensures |r| == |pieces| && forall i :: 0 <= i < |pieces| ==> r[i] == Trim(pieces[i])
  {
    seq(|pieces|, i requires 0 <= i < |pieces| => Trim(pieces[i]))
  }

  /** The test `filter(tag => tag.length > 0)` applies. */
  function NonEmpty(): string -> bool {
    t => |t| > 0
  }

  /** A well-formed tag: non-empty, trimmed, without a comma. */
  predicate IsTag(t: string) {
    t != [] && IsTrimmed(t) && ',' !in t
  }

  /** `tags.split(',').map(tag => tag.trim()).filter(tag => tag.length > 0)`. */
  function ParseTags(text: string): (r: seq<string>)
    ensures forall k :: 0 <= k < |r| ==> IsTag(r[k])
    ensures forall t :: t in r <==> t != [] && exists i :: 0 <= i < |Split(text, ',')| && Trim(Split(text, ',')[i]) == t
    ensures IsSubsequence(r, TrimAll(Split(text, ',')))
    ensures forall t :: multiset(r)[t] == if t != [] then multiset(TrimAll(Split(text, ',')))[t] else 0
  {
    var r := Filter(TrimAll(Split(text, ',')), NonEmpty());
    KeptPiecesAreTags(text, r);
    KeptPiecesCounted(TrimAll(Split(text, ',')), r);
    r
  }

  /** The non-empty trimmed pieces of a comma split are tags. */
  lemma KeptPiecesAreTags(text: string, r: seq<string>)
    requires r == Filter(TrimAll(Split(text, ',')), NonEmpty())
    ensures forall k :: 0 <= k < |r| ==> IsTag(r[k])
    ensures forall t :: t in r <==> t != [] && exists i :: 0 <= i < |Split(text, ',')| && Trim(Split(text, ',')[i]) == t
  {
    var pieces := Split(text, ',');
    var trimmed := TrimAll(pieces);
    forall k | 0 <= k < |r| ensures IsTag(r[k]) {
      assert r[k] in trimmed;
      var i :| 0 <= i < |trimmed| && trimmed[i] == r[k];
      TrimKeepsOnlyInputChars(pieces[i]);
    }
    forall t ensures t in r <==> t != [] && exists i :: 0 <= i < |pieces| && Trim(pieces[i]) == t {
      if t != [] && exists i :: 0 <= i < |pieces| && Trim(pieces[i]) == t {
        var i :| 0 <= i < |pieces| && Trim(pieces[i]) == t;
        assert trimmed[i] == t;
      }
    }
  }

  /** Filtering keeps every copy of a non-empty piece and none of the empty ones. */
  lemma KeptPiecesCounted(trimmed: seq<string>, r: seq<string>)
    requires r == Filter(trimmed, NonEmpty())
    ensures forall t :: multiset(r)[t] == if t != [] then multiset(trimmed)[t] else 0
  {
    FilterCount(trimmed, NonEmpty());
    assert forall t :: NonEmpty()(t) <==> t != [];
  }

  /** `handleSave()`: None where the trimmed name or value is empty; otherwise the trimmed name and
      value with the parsed tags. */
  function HandleSave(form: Form): (r: Option<Payload>)
    ensures r.None? <==> Trim(form.name) == [] || Trim(form.value) == []
    ensures r.Some? ==> r.value.name == Trim(form.name) && r.value.value == Trim(form.value)
                        && r.value.tags == ParseTags(form.tags)
    ensures r.Some? ==> r.value.name != [] && IsTrimmed(r.value.name) && r.value.value != [] && IsTrimmed(r.value.value)
  {
    var name, value := Trim(form.name), Trim(form.value);
    if name == [] || value == [] then None
    else Some(Payload(name, value, ParseTags(form.tags)))
  }

  /** The payload as `addSecret` takes it: no description. */
  function ToInput(p: Payload): (r: SecretInput)
    ensures r.name == p.name && r.value == p.value && r.tags == p.tags && r.description == []
  {
    SecretInput(p.name, p.value, p.tags, [])
  }

  /** The payload as `updateSecret` takes it: the description is left as it was. */
  function ToPatch(p: Payload): (r: SecretPatch)
    ensures r.name == Some(p.name) && r.value == Some(p.value) && r.tags == Some(p.tags) && r.description.None?
  {
    SecretPatch(Some(p.name), Some(p.value), Some(p.tags), None)
  }

  /** A tag after the blank that `join(', ')` puts before it trims back to itself. */
  lemma TrimPaddedTag(t: string)
    requires IsTag(t)
    ensures Trim(" " + t) == t
  {
    assert " " + t == [' '] + t;
    TrimSkipsLeadingWhitespace(' ', t);
    TrimOfTrimmed(t);
  }

  /** Trimming the padded pieces removes the padding. */
  lemma TrimAllPadded(tags: seq<string>)
    requires tags != []
    requires forall k :: 0 <= k < |tags| ==> IsTag(tags[k])
    ensures TrimAll([tags[0]] + Padded(tags[1..], " ")) == tags
  {
    var pieces := [tags[0]] + Padded(tags[1..], " ");
    TrimOfTrimmed(tags[0]);
    forall i | 1 <= i < |tags| ensures Trim(pieces[i]) == tags[i] {
      TrimPaddedTag(tags[i]);
    }
  }

  /** The pieces of the prefilled tag field, trimmed, are the tags again. */
  lemma TrimmedPiecesOfJoin(tags: seq<string>)
    requires tags != []
    requires forall k :: 0 <= k < |tags| ==> IsTag(tags[k])
    ensures TrimAll(Split(Join(tags, ", "), ',')) == tags
  {
    assert ", " == [','] + " ";
    SplitJoin(tags, ',', " ");
    TrimAllPadded(tags);
  }

  /** Parsing the prefilled tag field returns the tags, when each is a well-formed tag. */
  lemma PrefillTagsRoundTrip(tags: seq<string>)
    requires forall k :: 0 <= k < |tags| ==> IsTag(tags[k])
    ensures ParseTags(Join(tags, ", ")) == tags
  {
    if tags == [] {
      assert Split([], ',') == [[]];
      assert TrimAll([[]]) == [[]];
    } else {
      TrimmedPiecesOfJoin(tags);
      assert forall t :: t in tags ==> NonEmpty()(t);
    }
  }

  /** A secret whose name and value are non-empty and trimmed and whose tags are well formed. */
  predicate Editable(s: Secret) {
    s.name != [] && IsTrimmed(s.name) && s.value != [] && IsTrimmed(s.value)
    && forall k :: 0 <= k < |s.tags| ==> IsTag(s.tags[k])
  }

  /** Opening such a secret for editing and saving without a change hands back its own name,
      value and tags, so the update changes nothing but its update time. */
  lemma SaveUnchanged(s: Secret, now: string)
    requires Editable(s)
    ensures HandleSave(Prefill(Some(s))) == Some(Payload(s.name, s.value, s.tags))
    ensures Merge(s, ToPatch(Payload(s.name, s.value, s.tags)), now) == s.(updatedAt := now)
  {
    TrimOfTrimmed(s.name);
    TrimOfTrimmed(s.value);
    PrefillTagsRoundTrip(s.tags);
  }
}
