/**
 * The pure parts of src/example/cam_config.py: the text rendering of a loaded
 * camera configuration, the catalogue of configuration names, and lookup of a
 * configuration file by name.
 *
 * The bundled resource directory is given as a sequence of entries in the
 * order the recursive all-files glob enumerates them; the recursive `.json`
 * glob is taken to enumerate the `.json` entries of that sequence in the same order.
 */
module CamConfig {
  import opened Results

  // ---------------------------------------------------------------------------
  // The loaded configuration and its rendering
  // ---------------------------------------------------------------------------

  /**
   * A loaded camera configuration: the file it was read from and the values
   * of the JSON keys `socket_to_name`, `inverted`, `fisheye` and `mono`.
   * No method changes these after loading.
   */
  datatype Config = Config(
    configPath: string,
    socketToName: map<string, string>,
    inverted: bool,
    fisheye: bool,
    mono: bool)

  /** The text of the first line of every rendering. */
  const Title: string := "Camera Config: "

  /** The first line of every rendering, newline included. */
  const Header: string := Title + "\n"

  /** The labels of the three field lines, in rendering order. */
  const InvertedLabel: string := "Inverted: "
  const FisheyeLabel: string := "Fisheye: "
  const MonoLabel: string := "Mono: "

  /** Python's `str` of a bool, as `"{}".format` writes it. */
  function BoolText(b: bool): (text: string)
    ensures text == "True" <==> b
    ensures text == "False" <==> !b
    ensures '\n' !in text
  {
    if b then "True" else "False"
  }

  /** The text of a field line, without its newline: the label, then the flag. */
  function FieldLine(fieldLabel: string, flag: bool): (line: string)
    ensures '\n' !in fieldLabel ==> '\n' !in line
    ensures |line| == |fieldLabel| + |BoolText(flag)|
    ensures line[..|fieldLabel|] == fieldLabel && line[|fieldLabel|..] == BoolText(flag)
  {
    var line := fieldLabel + BoolText(flag);
    assert '\n' !in fieldLabel ==> forall k :: 0 <= k < |line| ==> line[k] != '\n' by {
      forall k | 0 <= k < |line| && '\n' !in fieldLabel ensures line[k] != '\n' {
        if k < |fieldLabel| {
          assert line[k] == fieldLabel[k];
        } else {
          assert line[k] == BoolText(flag)[k - |fieldLabel|];
        }
      }
    }
    line
  }

  /** A field line with its newline, as `"<label>{}\n".format(flag)` produces it. */
  function Row(fieldLabel: string, flag: bool): (row: string)
    ensures |row| > 0 && row[|row| - 1] == '\n'
  {
    FieldLine(fieldLabel, flag) + "\n"
  }

  /**
   * `to_string`: the header, then the Inverted, Fisheye and Mono rows,
   * appended in turn.
   */
  function ToString(c: Config): (r: string)
    ensures |r| > 0 && r[|r| - 1] == '\n'
  {
    var ret0 := Header;
    var ret1 := ret0 + Row(InvertedLabel, c.inverted);
    var ret2 := ret1 + Row(FisheyeLabel, c.fisheye);
    var ret3 := ret2 + Row(MonoLabel, c.mono);
    EndsInNewlineAppend(ret2, Row(MonoLabel, c.mono));
    ret3
  }

  /** The index of the first newline in `s`, or `|s|` when there is none. */
  function NewlineIndex(s: string): (i: nat)
    ensures i <= |s|
    ensures i < |s| ==> s[i] == '\n'
  {
    if s == [] || s[0] == '\n' then 0 else 1 + NewlineIndex(s[1..])
  }

  /** No newline is skipped: the index found is at most that of any newline. */
  lemma {:induction false} NewlineIndexFirst(s: string, j: nat)
    requires j < |s| && s[j] == '\n'
    ensures NewlineIndex(s) <= j
    decreases j
  {
    if s[0] != '\n' {
      NewlineIndexFirst(s[1..], j - 1);
    }
  }

  /** A newline-free line followed by a newline: the first newline is the one after the line. */
  lemma {:induction false} NewlineIndexOfLine(line: string, rest: string)
    requires '\n' !in line
    ensures NewlineIndex(line + "\n" + rest) == |line|
    decreases |line|
  {
    var s := line + "\n" + rest;
    if line == [] {
      assert s[0] == '\n';
    } else {
      assert s[0] == line[0];
      assert s[1..] == line[1..] + "\n" + rest;
      assert forall c :: c in line[1..] ==> c in line;
      NewlineIndexOfLine(line[1..], rest);
    }
  }

  /** Appending text after a newline does not move the first newline. */
  lemma {:induction false} NewlineIndexAppend(x: string, y: string)
    requires NewlineIndex(x) < |x|
    ensures NewlineIndex(x + y) == NewlineIndex(x)
    decreases |x|
  {
    assert (x + y)[0] == x[0];
    if x[0] != '\n' {
      assert (x + y)[1..] == x[1..] + y;
      NewlineIndexAppend(x[1..], y);
    }
  }

  /** The lines of `s`: the pieces between newlines; a final newline ends the last line. */
  function Lines(s: string): seq<string>
    decreases |s|
  {
    if s == [] then []
    else
      var i := NewlineIndex(s);
      if i == |s| then [s] else [s[..i]] + Lines(s[i + 1..])
  }

  /** A newline-free line followed by a final newline is the only line. */
  lemma LinesOfLine(line: string)
    requires '\n' !in line
    ensures Lines(line + "\n") == [line]
  {
    var s := line + "\n";
    assert s == line + "\n" + [];
    NewlineIndexOfLine(line, []);
    assert s[..|line|] == line;
    assert s[|line| + 1..] == [];
  }

  /** One step of `Lines`: the first line, then the lines after the first newline. */
  lemma LinesStep(s: string, line: string, rest: string)
    requires NewlineIndex(s) < |s|
    requires line == s[..NewlineIndex(s)] && rest == s[NewlineIndex(s) + 1..]
    ensures Lines(s) == [line] + Lines(rest)
  {
  }

  /** Empty, or ending in a newline: text made of whole lines. */
  predicate EndsInNewline(s: string)
  {
    s == [] || s[|s| - 1] == '\n'
  }

  /** Every suffix of text made of whole lines is made of whole lines. */
  lemma EndsInNewlineSuffix(s: string, k: nat)
    requires EndsInNewline(s) && k <= |s|
    ensures EndsInNewline(s[k..])
  {
    if k < |s| {
      assert s[k..][|s| - k - 1] == s[|s| - 1];
    }
  }

  /** The first line of text made of whole lines is also the first line of any extension of it. */
  lemma SplitFirstLine(x: string, y: string) returns (line: string, rest: string)
    requires EndsInNewline(x) && x != []
    ensures |rest| < |x| && EndsInNewline(rest)
    ensures Lines(x) == [line] + Lines(rest)
    ensures Lines(x + y) == [line] + Lines(rest + y)
  {
    NewlineIndexFirst(x, |x| - 1);
    NewlineIndexAppend(x, y);
    var i := NewlineIndex(x);
    line, rest := x[..i], x[i + 1..];
    assert (x + y)[..i] == line;
    assert (x + y)[i + 1..] == rest + y;
    LinesStep(x + y, line, rest + y);
    LinesStep(x, line, rest);
    EndsInNewlineSuffix(x, i + 1);
  }

  /** Prepending one line commutes with appending further lines. */
  lemma ConsAppend(line: string, a: seq<string>, b: seq<string>)
    ensures [line] + (a + b) == ([line] + a) + b
  {
  }

  /** Text that ends with a newline splits into lines independently of what follows it. */
  lemma {:induction false} LinesAppend(x: string, y: string)
    requires EndsInNewline(x)
    ensures Lines(x + y) == Lines(x) + Lines(y)
    decreases |x|
  {
    if x == [] {
      assert x + y == y;
      assert Lines(x) == [];
    } else {
      var line, rest := SplitFirstLine(x, y);
      LinesAppend(rest, y);
      ConsAppend(line, Lines(rest), Lines(y));
    }
  }

  /** Appending a newline-terminated piece leaves text made of whole lines. */
  lemma EndsInNewlineAppend(s: string, t: string)
    requires t != [] && t[|t| - 1] == '\n'
    ensures EndsInNewline(s + t)
  {
    assert (s + t)[|s + t| - 1] == t[|t| - 1];
  }

  /** The title and the three labels hold no newline. */
  lemma LabelsAreSingleLines()
    ensures '\n' !in Title
    ensures '\n' !in InvertedLabel && '\n' !in FisheyeLabel && '\n' !in MonoLabel
  {
  }

  /** Four newline-terminated lines split back into those four lines. */
  lemma LinesOfFourRows(l0: string, l1: string, l2: string, l3: string)
    requires '\n' !in l0 && '\n' !in l1 && '\n' !in l2 && '\n' !in l3
    ensures Lines((l0 + "\n") + (l1 + "\n") + (l2 + "\n") + (l3 + "\n")) == [l0, l1, l2, l3]
  {
    var r0, r1, r2, r3 := l0 + "\n", l1 + "\n", l2 + "\n", l3 + "\n";
    LinesOfLine(l0);
    LinesOfLine(l1);
    LinesOfLine(l2);
    LinesOfLine(l3);
    LinesAppend(r0, r1);
    assert Lines(r0 + r1) == [l0, l1];
    EndsInNewlineAppend(r0, r1);
    LinesAppend(r0 + r1, r2);
    assert Lines(r0 + r1 + r2) == [l0, l1, l2];
    EndsInNewlineAppend(r0 + r1, r2);
    LinesAppend(r0 + r1 + r2, r3);
    assert Lines(r0 + r1 + r2 + r3) == [l0, l1, l2] + [l3];
  }

  /**
   * The rendering is exactly four lines, in this order: the header, then
   * Inverted, Fisheye and Mono, each showing its field.
   */
  lemma ToStringLines(c: Config)
    ensures Lines(ToString(c)) == [
      Title,
      FieldLine(InvertedLabel, c.inverted),
      FieldLine(FisheyeLabel, c.fisheye),
      FieldLine(MonoLabel, c.mono)]
  {
    LabelsAreSingleLines();
    LinesOfFourRows(Title, FieldLine(InvertedLabel, c.inverted),
                    FieldLine(FisheyeLabel, c.fisheye), FieldLine(MonoLabel, c.mono));
  }

  /** Appending three pieces to `a` keeps `a` as a prefix. */
  lemma PrefixOfConcat(a: string, b: string, c: string, d: string)
    ensures |a + b + c + d| == |a| + |b| + |c| + |d|
    ensures (a + b + c + d)[..|a|] == a
  {
    assert a + b + c + d == a + (b + c + d);
  }

  /** The rendering begins with the header `"Camera Config: \n"`. */
  lemma ToStringStartsWithHeader(c: Config)
    ensures |Header| < |ToString(c)| && ToString(c)[..|Header|] == Header
  {
    PrefixOfConcat(Header, Row(InvertedLabel, c.inverted), Row(FisheyeLabel, c.fisheye),
                   Row(MonoLabel, c.mono));
  }

  /** The same label followed by two bools gives the same line only for the same bool. */
  lemma FieldLineInjective(fieldLabel: string, a: bool, b: bool)
    requires FieldLine(fieldLabel, a) == FieldLine(fieldLabel, b)
    ensures a == b
  {
  }

  /**
   * The rendering depends on the three flags and on nothing else: not on
   * `socket_to_name` and not on the file path; and different flags render
   * differently.
   */
  lemma ToStringDeterminedByFlags(c: Config, d: Config)
    ensures ToString(c) == ToString(d) <==>
            c.inverted == d.inverted && c.fisheye == d.fisheye && c.mono == d.mono
  {
    if c.inverted == d.inverted && c.fisheye == d.fisheye && c.mono == d.mono {
      assert Row(InvertedLabel, c.inverted) == Row(InvertedLabel, d.inverted);
      assert Row(FisheyeLabel, c.fisheye) == Row(FisheyeLabel, d.fisheye);
      assert Row(MonoLabel, c.mono) == Row(MonoLabel, d.mono);
    } else if ToString(c) == ToString(d) {
      ToStringLines(c);
      ToStringLines(d);
      FieldLineInjective(InvertedLabel, c.inverted, d.inverted);
      FieldLineInjective(FisheyeLabel, c.fisheye, d.fisheye);
      FieldLineInjective(MonoLabel, c.mono, d.mono);
    }
  }

  // ---------------------------------------------------------------------------
  // The catalogue of configuration files
  // ---------------------------------------------------------------------------

  /** One path enumerated by the glob, with pathlib's `stem` and `suffix` of it. */
  datatype Entry = Entry(path: string, stem: string, suffix: string)

  /** The suffix the recursive `.json` glob selects. */
  const JsonSuffix: string := ".json"

  predicate IsJson(e: Entry)
  {
    e.suffix == JsonSuffix
  }

  /**
   * `get_config_files_names`: the stem of every `.json` entry, in enumeration
   * order, one name per entry (duplicates kept). Exactly the stems of `.json`
   * entries occur in the result.
   */
  function ConfigFilesNames(entries: seq<Entry>): (names: seq<string>)
    ensures |names| <= |entries|
  {
    if entries == [] then []
    else StemIfJson(entries[0]) + ConfigFilesNames(entries[1..])
  }

  /** What one enumerated entry contributes to the name list. */
  function StemIfJson(e: Entry): (names: seq<string>)
    ensures |names| <= 1
  {
    if IsJson(e) then [e.stem] else []
  }

  /** Exactly the stems of `.json` entries are listed. */
  lemma {:induction false} ConfigFilesNamesMembers(entries: seq<Entry>, name: string)
    ensures name in ConfigFilesNames(entries) <==>
            exists e :: e in entries && IsJson(e) && e.stem == name
    decreases |entries|
  {
    if entries != [] {
      var tail := entries[1..];
      ConfigFilesNamesMembers(tail, name);
      assert ConfigFilesNames(entries) == StemIfJson(entries[0]) + ConfigFilesNames(tail);
      assert forall e :: e in entries <==> e == entries[0] || e in tail;
    }
  }

  /** Listing a concatenation lists each part in turn: order and duplicates are kept. */
  lemma {:induction false} ConfigFilesNamesAppend(a: seq<Entry>, b: seq<Entry>)
    ensures ConfigFilesNames(a + b) == ConfigFilesNames(a) + ConfigFilesNames(b)
    decreases |a|
  {
    if a == [] {
      assert a + b == b;
    } else {
      var head, tail := StemIfJson(a[0]), a[1..];
      assert (a + b)[0] == a[0];
      assert (a + b)[1..] == tail + b;
      assert ConfigFilesNames(a + b) == head + ConfigFilesNames(tail + b);
      assert ConfigFilesNames(a) == head + ConfigFilesNames(tail);
      ConfigFilesNamesAppend(tail, b);
      assert head + (ConfigFilesNames(tail) + ConfigFilesNames(b))
          == (head + ConfigFilesNames(tail)) + ConfigFilesNames(b);
    }
  }

  /**
   * The `.json` entry at index `i` contributes its stem at position
   * `|ConfigFilesNames(entries[..i])|`, the number of `.json` entries before it.
   */
  lemma ConfigFilesNamesPosition(entries: seq<Entry>, i: nat)
    requires i < |entries| && IsJson(entries[i])
    ensures |ConfigFilesNames(entries[..i])| < |ConfigFilesNames(entries)|
    ensures ConfigFilesNames(entries)[|ConfigFilesNames(entries[..i])|] == entries[i].stem
  {
    assert entries == entries[..i] + ([entries[i]] + entries[i + 1..]);
    ConfigFilesNamesAppend(entries[..i], [entries[i]] + entries[i + 1..]);
    ConfigFilesNamesAppend([entries[i]], entries[i + 1..]);
    assert [entries[i]][1..] == [];
  }

  /** Two `.json` entries contribute to distinct positions, in enumeration order. */
  lemma ConfigFilesNamesOrder(entries: seq<Entry>, i: nat, j: nat)
    requires i < j < |entries| && IsJson(entries[i])
    ensures |ConfigFilesNames(entries[..i])| < |ConfigFilesNames(entries[..j])|
  {
    assert entries[..j] == entries[..i] + ([entries[i]] + entries[i + 1..j]);
    ConfigFilesNamesAppend(entries[..i], [entries[i]] + entries[i + 1..j]);
    ConfigFilesNamesAppend([entries[i]], entries[i + 1..j]);
    assert [entries[i]][1..] == [];
  }

  // ---------------------------------------------------------------------------
  // Lookup by name
  // ---------------------------------------------------------------------------

  /** The index of the first entry, of any suffix, whose stem is `name`. */
  function FirstWithStem(entries: seq<Entry>, name: string): (r: Option<nat>)
    ensures r.Some? ==> r.value < |entries| && entries[r.value].stem == name
    ensures r.Some? ==> forall j :: 0 <= j < r.value ==> entries[j].stem != name
    ensures r.None? <==> forall e :: e in entries ==> e.stem != name
  {
    if entries == [] then None
    else if entries[0].stem == name then Some(0)
    else match FirstWithStem(entries[1..], name)
      case None => None
      case Some(i) => Some(i + 1)
  }

  /**
   * `get_config_file_path`: scans every entry in enumeration order and
   * returns the first whose stem is `name`, or `None` when no entry has that
   * stem. Unknown names are a normal outcome, not an error.
   */
  method ConfigFilePath(entries: seq<Entry>, name: string) returns (r: Option<Entry>)
    ensures r.None? <==> forall e :: e in entries ==> e.stem != name
    ensures r.None? <==> FirstWithStem(entries, name).None?
    ensures r.Some? ==> r.value == entries[FirstWithStem(entries, name).value]
  {
    for i := 0 to |entries|
      invariant forall j :: 0 <= j < i ==> entries[j].stem != name
    {
      if entries[i].stem == name {
        return Some(entries[i]);
      }
    }
    return None;
  }

  /** Every listed name resolves: lookup of a name from the catalogue never gives `None`. */
  lemma ListedNamesResolve(entries: seq<Entry>, name: string)
    requires name in ConfigFilesNames(entries)
    ensures FirstWithStem(entries, name).Some?
  {
    ConfigFilesNamesMembers(entries, name);
    var e :| e in entries && IsJson(e) && e.stem == name;
  }

  /**
   * Lookup is not restricted to `.json` files: a non-JSON file with the same
   * stem that is enumerated earlier is returned instead of the configuration.
   */
  lemma NonJsonEntryShadowsConfig()
    ensures var entries := [Entry("config_files/cam.txt", "cam", ".txt"),
                            Entry("config_files/cam.json", "cam", JsonSuffix)];
            ConfigFilesNames(entries) == ["cam"] &&
            FirstWithStem(entries, "cam") == Some(0) && !IsJson(entries[0])
  {
    var entries := [Entry("config_files/cam.txt", "cam", ".txt"),
                    Entry("config_files/cam.json", "cam", JsonSuffix)];
    assert entries[1..][1..] == [];
  }

  /**
   * Lookup as its documentation describes it: the first `.json` entry whose
   * stem is `name`. It finds something exactly for the listed names.
   */
  function JsonConfigFilePath(entries: seq<Entry>, name: string): (r: Option<Entry>)
    ensures r.Some? ==> IsJson(r.value) && r.value.stem == name
    ensures r.Some? ==> exists i :: 0 <= i < |entries| && entries[i] == r.value &&
                          forall j :: 0 <= j < i ==> !(IsJson(entries[j]) && entries[j].stem == name)
    ensures r.Some? <==> name in ConfigFilesNames(entries)
  {
    if entries == [] then None
    else if IsJson(entries[0]) && entries[0].stem == name then Some(entries[0])
    else JsonConfigFilePath(entries[1..], name)
  }
}
