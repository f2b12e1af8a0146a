/** The `.env` text format of the secrets list: the line parser of `importEnvFile` and the
    `name=value` lines `onExportFolder` writes. */
module EnvCodec {
  import opened Wrappers
  import opened Model
  import opened Seqs
  import opened Strings

  /** One parsed `NAME=value` line. */
  datatype EnvEntry = EnvEntry(name: string, value: string)

  predicate HasLineTerminator(s: string) {
    exists i :: 0 <= i < |s| && IsLineTerminator(s[i])
  }

  /** The position of the first `=`, or `|s|` when there is none. */
  function IndexOfEquals(s: string): (r: nat)
    ensures r <= |s| && (r < |s| ==> s[r] == '=')
    ensures forall j :: 0 <= j < r ==> s[j] != '='
  {
    FirstIndex(s, (c: char) => c == '=')
  }

  /** One line of `importEnvFile`: the trimmed line, unless it is empty or a `#` comment, matched
      against `/^([^=]+)=(.*)$/`. */
  function ParseLine(line: string): (r: Option<EnvEntry>)
    ensures Trim(line) == [] || Trim(line)[0] == '#' ==> r.None?
    ensures '=' !in Trim(line) ==> r.None?
    ensures r.Some? ==> r.value.name != [] && IsTrimmed(r.value.name) && '=' !in r.value.name
                        && IsTrimmed(r.value.value)
    ensures var t := Trim(line); var i := IndexOfEquals(t);
            r.Some? <==> t != [] && t[0] != '#' && 0 < i < |t| && !HasLineTerminator(t[i + 1..])
    ensures var t := Trim(line); var i := IndexOfEquals(t);
            r.Some? ==> i < |t| && r.value == EnvEntry(Trim(t[..i]), Trim(t[i + 1..]))
  {
    ParseTrimmed(Trim(line))
  }

  /** A trimmed line: nothing for an empty line or a comment, else the match at the first `=`. */
  function ParseTrimmed(t: string): (r: Option<EnvEntry>)
    requires IsTrimmed(t)
    ensures t == [] || t[0] == '#' ==> r.None?
    ensures '=' !in t ==> r.None?
    ensures r.Some? ==> r.value.name != [] && IsTrimmed(r.value.name) && '=' !in r.value.name
                        && IsTrimmed(r.value.value)
    ensures var i := IndexOfEquals(t);
            r.Some? <==> t != [] && t[0] != '#' && 0 < i < |t| && !HasLineTerminator(t[i + 1..])
    ensures var i := IndexOfEquals(t);
            r.Some? ==> i < |t| && r.value == EnvEntry(Trim(t[..i]), Trim(t[i + 1..]))
  {
    if t == [] || t[0] == '#' then None
    else EntryAt(t, IndexOfEquals(t))
  }

  /** The match of `/^([^=]+)=(.*)$/` with the first `=` at `i`: the name is the non-empty text
      before it, the value the rest, which `.` requires to be free of line terminators; both
      are trimmed. */
  function EntryAt(t: string, i: nat): (r: Option<EnvEntry>)
    requires i <= |t| && (i < |t| ==> t[i] == '=') && (forall j :: 0 <= j < i ==> t[j] != '=')
    requires t != [] && !IsWhitespace(t[0])
    ensures r.None? <==> i == 0 || i == |t| || HasLineTerminator(t[i + 1..])
    ensures r.Some? ==> r.value == EnvEntry(Trim(t[..i]), Trim(t[i + 1..]))
    ensures r.Some? ==> r.value.name != [] && '=' !in r.value.name
  {
    if i == 0 || i == |t| || HasLineTerminator(t[i + 1..]) then None
    else
      TrimNonEmpty(t[..i]);
      TrimKeepsOnlyInputChars(t[..i]);
      Some(EnvEntry(Trim(t[..i]), Trim(t[i + 1..])))
  }

  /** The entries of a list of lines, in order. */
  function EnvEntries(lines: seq<string>): (r: seq<EnvEntry>)
    ensures |r| <= |lines|
    ensures forall k :: 0 <= k < |r| ==> r[k].name != [] && IsTrimmed(r[k].name) && '=' !in r[k].name
    ensures forall e :: e in r <==> exists j :: 0 <= j < |lines| && ParseLine(lines[j]) == Some(e)
  {
    if lines == [] then []
    else
      var init := lines[..|lines| - 1];
      assert forall j :: 0 <= j < |init| ==> init[j] == lines[j];
      EnvEntries(init) + LineEntries(lines[|lines| - 1])
  }

  /** The entry of one line, if it has one. */
  function LineEntries(line: string): (r: seq<EnvEntry>)
    ensures |r| <= 1
    ensures forall e :: e in r <==> ParseLine(line) == Some(e)
    ensures r != [] ==> r[0].name != [] && IsTrimmed(r[0].name) && '=' !in r[0].name
  {
    var e := ParseLine(line);
    if e.Some? then [e.value] else []
  }

  lemma EnvEntriesSnoc(lines: seq<string>, line: string)
    ensures EnvEntries(lines + [line]) == EnvEntries(lines) + LineEntries(line)
  {
    assert (lines + [line])[..|lines|] == lines;
  }

  lemma EnvEntriesPrefix(lines: seq<string>, k: nat)
    requires k < |lines|
    ensures EnvEntries(lines[..k + 1]) == EnvEntries(lines[..k]) + LineEntries(lines[k])
  {
    assert lines[..k + 1] == lines[..k] + [lines[k]];
    EnvEntriesSnoc(lines[..k], lines[k]);
  }

  /** The parse loop of `importEnvFile`: splits the text on `"\n"` and keeps each parsed line. */
  method ParseEnvText(text: string) returns (entries: seq<EnvEntry>)
    ensures entries == EnvEntries(Split(text, '\n'))
  {
    var lines := Split(text, '\n');
    entries := [];
    var k := 0;
    while k < |lines|
      invariant 0 <= k <= |lines|
      invariant entries == EnvEntries(lines[..k])
    {
      EnvEntriesPrefix(lines, k);
      entries := entries + LineEntries(lines[k]);
      k := k + 1;
    }
    assert lines[..k] == lines;
  }

  /** Text that trims to nothing has no entries. */
  lemma {:induction false} BlankHasNoEntries(lines: seq<string>)
    requires forall k :: 0 <= k < |lines| ==> AllWhitespace(lines[k])
    ensures EnvEntries(lines) == []
  {
    if lines != [] {
      TrimEmptyIffAllWhitespace(lines[|lines| - 1]);
      BlankHasNoEntries(lines[..|lines| - 1]);
    }
  }

  /** A text that trims to nothing has no entries. */
  lemma BlankTextHasNoEntries(text: string)
    requires Trim(text) == []
    ensures EnvEntries(Split(text, '\n')) == []
  {
    TrimEmptyIffAllWhitespace(text);
    var lines := Split(text, '\n');
    SplitKeepsChars(text, '\n');
    forall k | 0 <= k < |lines| ensures AllWhitespace(lines[k]) {
      forall j | 0 <= j < |lines[k]| ensures IsWhitespace(lines[k][j]) {
        assert lines[k][j] in lines[k];
        assert lines[k][j] in text;
        var i :| 0 <= i < |text| && text[i] == lines[k][j];
      }
    }
    BlankHasNoEntries(lines);
  }

  /** `${secret.name}=${secret.value}`. */
  function ExportLine(s: Secret): string {
    s.name + "=" + s.value
  }

  function ExportLines(ss: seq<Secret>): (r: seq<string>)
    ensures |r| == |ss| && forall k :: 0 <= k < |ss| ==> r[k] == ExportLine(ss[k])
  {
    seq(|ss|, k requires 0 <= k < |ss| => ExportLine(ss[k]))
  }

  /** `onExportFolder`: one line per secret, in folder order, joined by `"\n"`. */
  function ExportEnv(ss: seq<Secret>): string {
    Join(ExportLines(ss), "\n")
  }

  /** The names and values of a list of secrets. */
  function EntriesOf(ss: seq<Secret>): (r: seq<EnvEntry>)
    ensures |r| == |ss| && forall k :: 0 <= k < |ss| ==> r[k] == EnvEntry(ss[k].name, ss[k].value)
  {
    seq(|ss|, k requires 0 <= k < |ss| => EnvEntry(ss[k].name, ss[k].value))
  }

  /** A secret whose line reads back as itself: a trimmed, non-empty name without `=` or line
      breaks that does not start a comment, and a trimmed value without line terminators. */
  predicate Exportable(s: Secret) {
    s.name != [] && IsTrimmed(s.name) && '=' !in s.name && '\n' !in s.name && s.name[0] != '#'
    && IsTrimmed(s.value) && !HasLineTerminator(s.value)
  }

  lemma ParseExportedLine(s: Secret)
    requires Exportable(s)
    ensures ParseLine(ExportLine(s)) == Some(EnvEntry(s.name, s.value))
  {
    var line := ExportLine(s);
    ExportLineShape(s);
    TrimOfTrimmed(line);
    TrimOfTrimmed(s.name);
    TrimOfTrimmed(s.value);
    FirstEqualsAfterName(line, |s.name|);
    ParseAt(line, |s.name|, s.name, s.value);
  }

  /** A line that is its own trim, not a comment, whose first `=` is at `i`. */
  lemma ParseAt(line: string, i: nat, name: string, value: string)
    requires Trim(line) == line && line != [] && line[0] != '#'
    requires 0 < i < |line| && IndexOfEquals(line) == i
    requires line[..i] == name && line[i + 1..] == value
    requires Trim(name) == name && Trim(value) == value && !HasLineTerminator(value)
    ensures ParseLine(line) == Some(EnvEntry(name, value))
  {
    ParseUntrimmed(line);
    ParseAtEquals(line, i);
    EntryOfParts(line, i, name, value);
  }

  lemma ParseUntrimmed(line: string)
    requires Trim(line) == line
    ensures ParseLine(line) == ParseTrimmed(line)
  {
  }

  lemma ParseAtEquals(line: string, i: nat)
    requires IsTrimmed(line) && line != [] && line[0] != '#'
    requires 0 < i < |line| && IndexOfEquals(line) == i
    ensures ParseTrimmed(line) == EntryAt(line, i)
  {
  }

  lemma EntryOfParts(t: string, i: nat, name: string, value: string)
    requires 0 < i < |t| && t[i] == '=' && (forall j :: 0 <= j < i ==> t[j] != '=') && !IsWhitespace(t[0])
    requires t[..i] == name && t[i + 1..] == value && !HasLineTerminator(value)
    ensures EntryAt(t, i) == Some(EnvEntry(Trim(name), Trim(value)))
  {
  }

  lemma ExportLineShape(s: Secret)
    requires Exportable(s)
    ensures var line := ExportLine(s);
            IsTrimmed(line) && line != [] && line[0] != '#'
            && |s.name| < |line| && line[|s.name|] == '=' && (forall j :: 0 <= j < |s.name| ==> line[j] != '=')
            && line[..|s.name|] == s.name && line[|s.name| + 1..] == s.value
  {
    var line := ExportLine(s);
    assert line[0] == s.name[0];
    assert line[|line| - 1] == if s.value == [] then '=' else s.value[|s.value| - 1];
    assert forall j :: 0 <= j < |s.name| ==> line[j] == s.name[j];
  }

  lemma FirstEqualsAfterName(line: string, n: nat)
    requires n < |line| && line[n] == '=' && forall j :: 0 <= j < n ==> line[j] != '='
    ensures IndexOfEquals(line) == n
  {
  }

  lemma ExportLinesSnoc(ss: seq<Secret>)
    requires ss != []
    ensures ExportLines(ss) == ExportLines(ss[..|ss| - 1]) + [ExportLine(ss[|ss| - 1])]
  {
    var init := ss[..|ss| - 1];
    assert forall k :: 0 <= k < |init| ==> init[k] == ss[k];
  }

  lemma EntriesOfSnoc(ss: seq<Secret>)
    requires ss != []
    ensures EntriesOf(ss) == EntriesOf(ss[..|ss| - 1]) + [EnvEntry(ss[|ss| - 1].name, ss[|ss| - 1].value)]
  {
    var init := ss[..|ss| - 1];
    assert forall k :: 0 <= k < |init| ==> init[k] == ss[k];
  }

  lemma {:induction false} ParseExportedLines(ss: seq<Secret>)
    requires forall k :: 0 <= k < |ss| ==> Exportable(ss[k])
    ensures EnvEntries(ExportLines(ss)) == EntriesOf(ss)
  {
    if ss != [] {
      var init, last := ss[..|ss| - 1], ss[|ss| - 1];
      ParseExportedLines(init);
      ParseExportedLine(last);
      ExportLinesSnoc(ss);
      EntriesOfSnoc(ss);
      EnvEntriesSnoc(ExportLines(init), ExportLine(last));
    }
  }

  lemma ExportLineHasNoNewline(s: Secret)
    requires Exportable(s)
    ensures '\n' !in ExportLine(s)
  {
    var line := ExportLine(s);
    forall j | 0 <= j < |line| ensures line[j] != '\n' {
      if j < |s.name| {
        assert line[j] == s.name[j];
      } else if j > |s.name| {
        assert line[j] == s.value[j - |s.name| - 1];
      }
    }
  }

  /** The exported text splits back into its lines. */
  lemma SplitExport(ss: seq<Secret>)
    requires ss != [] && forall k :: 0 <= k < |ss| ==> Exportable(ss[k])
    ensures Split(ExportEnv(ss), '\n') == ExportLines(ss)
  {
    var lines := ExportLines(ss);
    forall k | 0 <= k < |lines| ensures '\n' !in lines[k] {
      ExportLineHasNoNewline(ss[k]);
    }
    SplitJoin(lines, '\n', []);
    assert ['\n'] + [] == "\n";
    assert Padded(lines[1..], []) == lines[1..] by {
      forall i | 0 <= i < |lines| - 1 ensures Padded(lines[1..], [])[i] == lines[1..][i] {
        assert [] + lines[1..][i] == lines[1..][i];
      }
    }
    assert [lines[0]] + lines[1..] == lines;
  }

  /** Parsing an exported folder returns the names and values of its secrets, in order. */
  lemma ParseExport(ss: seq<Secret>)
    requires forall k :: 0 <= k < |ss| ==> Exportable(ss[k])
    ensures EnvEntries(Split(ExportEnv(ss), '\n')) == EntriesOf(ss)
  {
    if ss == [] {
      assert Split(ExportEnv(ss), '\n') == [[]];
      assert EnvEntries([[]]) == EnvEntries([]) + LineEntries([]);
    } else {
      SplitExport(ss);
      ParseExportedLines(ss);
    }
  }
}
