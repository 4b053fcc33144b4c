/**
 * The report on one path: the `File` record and the framed panel its
 * `Display` implementation writes. Reading the entry from the filesystem is
 * not modelled; what it yields (the file name, the size text, the
 * permission bits, the type tests and the timestamps) comes in as values.
 */
module Informer {
  import opened Wrappers
  import opened Formatting
  import Permissions
  import Kind
  import Date

  datatype File = File(
    name: string,
    size: string,
    permissions: Permissions.Slots,
    kind: Kind.FileKind,
    date: Date.FileDate)

  /** The text width between the `"│ "` and `" │"` of every inner line. */
  const TEXT_WIDTH: nat := 63

  /** The number of `─` in every border. */
  const RULE_WIDTH: nat := 65

  /** The width of the borders, and of every padded line whose field fits. */
  const LINE_WIDTH: nat := 67

  /** The name `File::new` gives a path that has no final component. */
  const UNNAMED: string := "unknown"

  /**
   * The part of `File::new` that follows the metadata read: the name (or
   * the sentinel when the path has no final component), the size text as
   * given, and the three classifications.
   */
  function Assemble<T>(
    fileName: Option<string>,
    size: string,
    perms: Permissions.RawPermissions,
    fileType: Kind.FileType,
    times: Date.Times<T>,
    parseTime: T -> string): (r: File)
    requires Kind.Classifiable(fileType)
    ensures fileName.None? ==> r.name == UNNAMED
    ensures fileName.Some? ==> r.name == fileName.value
    ensures r.size == size
    ensures r.permissions == Permissions.New(perms)
    ensures r.kind == Kind.From(fileType)
    ensures r.date == Date.From(times, parseTime)
    ensures r.permissions[0] == Some(Permissions.Read)
    ensures r.date.accessed == r.date.modified
  {
    var name := match fileName case None => UNNAMED case Some(n) => n;
    File(name, size, Permissions.New(perms), Kind.From(fileType), Date.From(times, parseTime))
  }

  /** A border: a corner glyph, `"─".repeat(65)`, and the other corner glyph. */
  function Border(left: char, right: char): (r: string)
    ensures |r| == LINE_WIDTH
    ensures r[0] == left && r[LINE_WIDTH - 1] == right
  {
    [left] + Repeat('─', RULE_WIDTH) + [right]
  }

  /** Between its corners a border is all `─`. */
  lemma BorderRule(left: char, right: char)
    ensures forall i :: 0 < i < LINE_WIDTH - 1 ==> Border(left, right)[i] == '─'
  {
    var r := Border(left, right);
    forall i | 0 < i < LINE_WIDTH - 1 ensures r[i] == '─' {
      assert r[i] == Repeat('─', RULE_WIDTH)[i - 1];
    }
  }

  /**
   * `format!("│ {:^63.63} │", name)`: the name cut to 63 chars and centred
   * in 63 chars.
   */
  function NameLine(name: string): (r: string)
    ensures |r| == LINE_WIDTH
  {
    "│ " + Center(Truncate(name, TEXT_WIDTH), TEXT_WIDTH) + " │"
  }

  /**
   * A name of at most 63 chars is shown whole, centred with the odd space
   * on the right; a longer one loses everything after its 63rd char.
   */
  lemma NameLineContent(name: string)
    ensures NameLine(name)[..2] == "│ " && NameLine(name)[LINE_WIDTH - 2..] == " │"
    ensures |name| <= TEXT_WIDTH ==>
              var left := Padding(|name|, TEXT_WIDTH) / 2;
              && NameLine(name)[2 + left..2 + left + |name|] == name
              && (forall i :: 2 <= i < 2 + left ==> NameLine(name)[i] == ' ')
              && (forall i :: 2 + left + |name| <= i < LINE_WIDTH - 2 ==> NameLine(name)[i] == ' ')
              && left <= TEXT_WIDTH - |name| - left <= left + 1
    ensures |name| > TEXT_WIDTH ==> NameLine(name) == "│ " + name[..TEXT_WIDTH] + " │"
  {
    var shown := Truncate(name, TEXT_WIDTH);
    var centred := Center(shown, TEXT_WIDTH);
    CenterContent(shown, TEXT_WIDTH);
    var r := NameLine(name);
    assert r == "│ " + centred + " │";
    var left := Padding(|shown|, TEXT_WIDTH) / 2;
    if |name| <= TEXT_WIDTH {
      assert shown == name;
      assert r[2 + left..2 + left + |name|] == centred[left..left + |name|];
      forall i | 2 <= i < 2 + left ensures r[i] == ' ' {
        assert r[i] == centred[i - 2];
      }
      forall i | 2 + left + |name| <= i < LINE_WIDTH - 2 ensures r[i] == ' ' {
        assert r[i] == centred[i - 2];
      }
    } else {
      assert centred == shown;
    }
  }

  /**
   * `format!("│ <title>{:<w} │", value)`: the title, then the value
   * left-aligned in `w` chars. The value is never cut, so a value longer than
   * `w` makes the line longer.
   */
  function FieldLine(title: string, value: string, w: nat): (r: string)
    ensures |r| == 4 + |title| + (if |value| < w then w else |value|)
  {
    "│ " + title + PadEnd(value, w) + " │"
  }

  /** A field line shows its title and then its value whole, followed by spaces only. */
  lemma FieldLineContent(title: string, value: string, w: nat)
    ensures var r := FieldLine(title, value, w);
            && r[..2 + |title|] == "│ " + title
            && r[2 + |title|..2 + |title| + |value|] == value
            && (forall i :: 2 + |title| + |value| <= i < |r| - 2 ==> r[i] == ' ')
            && r[|r| - 2..] == " │"
  {
    var r := FieldLine(title, value, w);
    var padded := PadEnd(value, w);
    PadEndContent(value, w);
    assert r == ("│ " + title) + padded + " │";
    forall i | 2 + |title| + |value| <= i < |r| - 2 ensures r[i] == ' ' {
      assert r[i] == padded[i - 2 - |title|];
    }
    assert r[2 + |title|..2 + |title| + |value|] == padded[..|value|];
  }

  /**
   * `format!("│ Type: {:<57} │", self.kind)`. A width is applied only by a
   * `Display` that goes through `Formatter::pad`; `Display for FileKind`
   * writes its word with `write!`, so the 57 is ignored and the word is
   * not padded.
   */
  function TypeLine(kind: Kind.FileKind): (r: string)
    ensures |r| == 10 + |Kind.Label(kind)|
    ensures r[..8] == "│ Type: " && r[8..|r| - 2] == Kind.Label(kind) && r[|r| - 2..] == " │"
    ensures '\n' !in r
  {
    "│ Type: " + Kind.Label(kind) + " │"
  }

  /**
   * `format!("│ Permissions: {:<50} │", permissions)` with the joined slot
   * labels: their text always fits, so the line is always as wide as a border.
   */
  function PermissionsLine(slots: Permissions.Slots): (r: string)
    ensures |r| == LINE_WIDTH
    ensures '\n' !in r
  {
    var text := Permissions.JoinLabels(slots);
    Permissions.JoinLabelsSingleLine(slots);
    FieldLineSingleLine("Permissions: ", text, 50);
    FieldLine("Permissions: ", text, 50)
  }

  /** The permissions line shows the joined slot labels whole, straight after its title. */
  lemma PermissionsLineContent(slots: Permissions.Slots)
    ensures var text := Permissions.JoinLabels(slots);
            PermissionsLine(slots)[15..15 + |text|] == text
  {
    FieldLineContent("Permissions: ", Permissions.JoinLabels(slots), 50);
  }

  /** The ten lines `Display for File` writes, top border first. */
  function PanelLines(file: File): (r: seq<string>)
    ensures |r| == 10
  {
    [ Border('╭', '╮'),
      NameLine(file.name),
      Border('├', '┤'),
      FieldLine("Size: ", file.size, 57),
      PermissionsLine(file.permissions),
      TypeLine(file.kind),
      FieldLine("Created: ", file.date.created, 54),
      FieldLine("Modified: ", file.date.modified, 53),
      FieldLine("Accessed: ", file.date.accessed, 53),
      Border('╰', '╯') ]
  }

  /**
   * The panel the widths evidently aim at: the same lines, but with the kind
   * padded to 57 chars like the other fields.
   */
  function IntendedPanelLines(file: File): (r: seq<string>)
    ensures |r| == 10
    ensures forall i :: 0 <= i < 10 && i != 5 ==> r[i] == PanelLines(file)[i]
  {
    PanelLines(file)[5 := FieldLine("Type: ", Kind.Label(file.kind), 57)]
  }

  /** The whole panel: the lines separated by newlines, with none after the last. */
  function Panel(file: File): (r: string)
    ensures |r| == TotalLength(PanelLines(file)) + 9
  {
    Join(PanelLines(file), '\n')
  }

  /** The free-text fields are short enough for their padded slots. */
  predicate Fits(file: File)
  {
    && |file.size| <= 57
    && |file.date.created| <= 54
    && |file.date.modified| <= 53
    && |file.date.accessed| <= 53
  }

  /**
   * The nine lines other than the Type line are exactly as wide as the
   * borders precisely when the free-text fields fit (the permissions always
   * do); the Type line is as long as the kind's word and its frame.
   */
  lemma UniformWidth(file: File)
    ensures Fits(file) <==> forall i :: 0 <= i < 10 && i != 5 ==> |PanelLines(file)[i]| == LINE_WIDTH
    ensures |PanelLines(file)[5]| == 10 + |Kind.Label(file.kind)|
  {
    var lines := PanelLines(file);
    if Fits(file) {
      forall i | 0 <= i < 10 && i != 5 ensures |lines[i]| == LINE_WIDTH {
      }
    } else {
      assert |lines[3]| > LINE_WIDTH || |lines[6]| > LINE_WIDTH
          || |lines[7]| > LINE_WIDTH || |lines[8]| > LINE_WIDTH;
    }
  }

  /** As written, the Type line is 16 or 17 chars, so it never lines up with the border. */
  lemma TypeLineNeverAligned(file: File)
    ensures |PanelLines(file)[5]| < LINE_WIDTH
    ensures |PanelLines(file)[5]| != |PanelLines(file)[0]|
  {
  }

  /**
   * In the intended panel, all ten lines are exactly as wide as the borders
   * precisely when the free-text fields fit; the permissions and the type
   * always do.
   */
  lemma IntendedUniformWidth(file: File)
    ensures Fits(file) <==> forall i :: 0 <= i < 10 ==> |IntendedPanelLines(file)[i]| == LINE_WIDTH
  {
    var lines := IntendedPanelLines(file);
    UniformWidth(file);
    if Fits(file) {
      forall i | 0 <= i < 10 ensures |lines[i]| == LINE_WIDTH {
        if i != 5 {
          assert lines[i] == PanelLines(file)[i];
        }
      }
    } else {
      assert lines[3] == PanelLines(file)[3] && lines[6] == PanelLines(file)[6];
      assert lines[7] == PanelLines(file)[7] && lines[8] == PanelLines(file)[8];
    }
  }

  /** Each field value stands whole on its line, straight after its label. */
  lemma FieldsShownWhole(file: File)
    ensures PanelLines(file)[3][8..8 + |file.size|] == file.size
    ensures PanelLines(file)[4][15..15 + |Permissions.JoinLabels(file.permissions)|]
              == Permissions.JoinLabels(file.permissions)
    ensures PanelLines(file)[6][11..11 + |file.date.created|] == file.date.created
    ensures PanelLines(file)[7][12..12 + |file.date.modified|] == file.date.modified
    ensures PanelLines(file)[8][12..12 + |file.date.accessed|] == file.date.accessed
  {
    var lines := PanelLines(file);
    assert lines[3] == FieldLine("Size: ", file.size, 57);
    FieldLineContent("Size: ", file.size, 57);
    assert lines[4] == PermissionsLine(file.permissions);
    PermissionsLineContent(file.permissions);
    assert lines[6] == FieldLine("Created: ", file.date.created, 54);
    FieldLineContent("Created: ", file.date.created, 54);
    assert lines[7] == FieldLine("Modified: ", file.date.modified, 53);
    FieldLineContent("Modified: ", file.date.modified, 53);
    assert lines[8] == FieldLine("Accessed: ", file.date.accessed, 53);
    FieldLineContent("Accessed: ", file.date.accessed, 53);
  }

  lemma BorderSingleLine(left: char, right: char)
    requires left != '\n' && right != '\n'
    ensures '\n' !in Border(left, right)
  {
    BorderRule(left, right);
  }

  lemma NameLineSingleLine(name: string)
    requires '\n' !in name
    ensures '\n' !in NameLine(name)
  {
    var shown := Truncate(name, TEXT_WIDTH);
    assert forall i :: 0 <= i < |shown| ==> shown[i] == name[i];
    var centred := Center(shown, TEXT_WIDTH);
    CenterContent(shown, TEXT_WIDTH);
    var left := Padding(|shown|, TEXT_WIDTH) / 2;
    forall i | 0 <= i < |centred| ensures centred[i] != '\n' {
      if left <= i < left + |shown| {
        assert centred[i] == centred[left..left + |shown|][i - left] == shown[i - left];
      }
    }
    assert NameLine(name) == "│ " + centred + " │";
  }

  lemma FieldLineSingleLine(title: string, value: string, w: nat)
    requires '\n' !in title && '\n' !in value
    ensures '\n' !in FieldLine(title, value, w)
  {
    var padded := PadEnd(value, w);
    PadEndContent(value, w);
    forall i | 0 <= i < |padded| ensures padded[i] != '\n' {
      if i < |value| { assert padded[i] == padded[..|value|][i] == value[i]; }
    }
    assert FieldLine(title, value, w) == "│ " + title + padded + " │";
  }

  lemma NoNewlineInLines(file: File)
    requires '\n' !in file.name && '\n' !in file.size
    requires '\n' !in file.date.created && '\n' !in file.date.modified && '\n' !in file.date.accessed
    ensures forall i :: 0 <= i < 10 ==> '\n' !in PanelLines(file)[i]
  {
    var lines := PanelLines(file);
    forall i | 0 <= i < 10 ensures '\n' !in lines[i] {
      if i == 0 {
        BorderSingleLine('╭', '╮');
      } else if i == 1 {
        NameLineSingleLine(file.name);
      } else if i == 2 {
        BorderSingleLine('├', '┤');
      } else if i == 3 {
        FieldLineSingleLine("Size: ", file.size, 57);
      } else if i == 6 {
        FieldLineSingleLine("Created: ", file.date.created, 54);
      } else if i == 7 {
        FieldLineSingleLine("Modified: ", file.date.modified, 53);
      } else if i == 8 {
        FieldLineSingleLine("Accessed: ", file.date.accessed, 53);
      } else if i == 9 {
        BorderSingleLine('╰', '╯');
      }
    }
  }

  /** When no field holds a newline, the panel's lines are exactly the ten panel lines. */
  lemma PanelSplitsIntoLines(file: File)
    requires '\n' !in file.name && '\n' !in file.size
    requires '\n' !in file.date.created && '\n' !in file.date.modified && '\n' !in file.date.accessed
    ensures Split(Panel(file), '\n') == PanelLines(file)
  {
    NoNewlineInLines(file);
    SplitJoin(PanelLines(file), '\n');
  }

  /** Writing line `k` and a newline extends the join of the lines before it by that line. */
  lemma WroteLine(lines: seq<string>, k: nat, start: string, before: string, after: string)
    requires 0 < k < |lines|
    requires before == start + Join(lines[..k], '\n') + "\n"
    requires after == before + (lines[k] + "\n")
    ensures after == start + Join(lines[..k + 1], '\n') + "\n"
  {
    var init := Join(lines[..k], '\n');
    JoinPrefix(lines, '\n', k);
    calc {
      after;
      (start + init + "\n") + (lines[k] + "\n");
      start + (init + "\n" + lines[k]) + "\n";
      start + Join(lines[..k + 1], '\n') + "\n";
    }
  }

  lemma Regroup(a: string, b: string, c: string, d: string)
    ensures a + b + c + d == a + (b + c + d)
  {
  }

  /** Writing the last line, with no newline after it, completes the join. */
  lemma WroteLastLine(lines: seq<string>, start: string, before: string, after: string)
    requires 1 < |lines|
    requires before == start + Join(lines[..|lines| - 1], '\n') + "\n"
    requires after == before + lines[|lines| - 1]
    ensures after == start + Join(lines, '\n')
  {
    var n := |lines|;
    JoinLast(lines, '\n');
    Regroup(start, Join(lines[..n - 1], '\n'), "\n", lines[n - 1]);
  }

  /**
   * `Display for File::fmt`: computes the ten lines (`lines[1]` is
   * `name_line`, `lines[3]` is `size_line`, and so on, the borders framing
   * them), then writes them to `f` one `write!` at a time, each but the last
   * followed by a newline.
   */
  method Fmt(file: File, f: Formatter)
    modifies f
    ensures f.buffer == old(f.buffer) + Panel(file)
  {
    var lines := PanelLines(file);

    // After each write, the buffer holds the lines written so far, joined and
    // followed by a newline.
    ghost var start := f.buffer;
    f.WriteStr(lines[0] + "\n");
    ghost var before := f.buffer;
    assert lines[..1] == [lines[0]];
    f.WriteStr(lines[1] + "\n");
    WroteLine(lines, 1, start, before, f.buffer);
    before := f.buffer;
    f.WriteStr(lines[2] + "\n");
    WroteLine(lines, 2, start, before, f.buffer);
    before := f.buffer;

    f.WriteStr(lines[3] + "\n");
    WroteLine(lines, 3, start, before, f.buffer);
    before := f.buffer;
    f.WriteStr(lines[4] + "\n");
    WroteLine(lines, 4, start, before, f.buffer);
    before := f.buffer;
    f.WriteStr(lines[5] + "\n");
    WroteLine(lines, 5, start, before, f.buffer);
    before := f.buffer;
    f.WriteStr(lines[6] + "\n");
    WroteLine(lines, 6, start, before, f.buffer);
    before := f.buffer;
    f.WriteStr(lines[7] + "\n");
    WroteLine(lines, 7, start, before, f.buffer);
    before := f.buffer;
    f.WriteStr(lines[8] + "\n");
    WroteLine(lines, 8, start, before, f.buffer);
    before := f.buffer;
    f.WriteStr(lines[9]);
    WroteLastLine(lines, start, before, f.buffer);
  }
}
