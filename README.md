# prop: the file informer, in Dafny

`prop` prints a framed panel for every path it is given: the file name,
its size, its permissions, its kind and its three timestamps. This project
models the code that builds and draws that panel, from `src/informer.rs`:

- `FilePermissions::new` and `is_executable`. They sort a read-only flag and a
  Unix mode word into three fixed slots: read, write and execute.
- `FileKind::from`. It classifies the entry as regular file, folder or symlink,
  in that order of precedence.
- `FileDate::from`. It turns the reported timestamps into text, or into the
  sentinel `"unknown"`.
- The `Display` impls. `FilePermissions` and `FileKind` print labels. The
  permission labels are joined with `+`. `File` prints the ten-line panel.

The modules are:

- `Wrappers`: `Option`.
- `Formatting`: the pieces of `std::fmt` the panel uses: repeat, precision cut,
  left alignment, centring and join. It adds a `Split` that is the partner of
  join, and a `Formatter` class, the output buffer that `write!` appends to.
- `Permissions`, `Kind` and `Date`: one module per classifier.
- `Informer`: the `File` record, its assembly from metadata values, the lines
  of the panel, and `Fmt`. `Fmt` is the method that writes those lines to a
  `Formatter` one `write!` at a time.

The source's own choices are kept:

- Empty permission slots still take part in the join, so the text is
  `"Read++"` rather than `"Read"`.
- The accessed field is computed from the modification time.
- The string-valued fields (size, permissions and the three dates) are padded
  to their widths but never cut; only the name is cut to 63 chars.
- The kind is not padded at all. `Display for FileKind` writes its word with
  `write!`, and a `Display` only honours a width when it calls
  `Formatter::pad`. So the Type line is 16 or 17 chars wide, while the
  borders are 67 (see "## Findings").
- `Display for File` writes ten lines: the border, the name, a divider, six
  fields and the closing border.

## Model

| member | source | states |
|---|---|---|
| `Permissions.IsExecutable` | src/informer.rs:101-103 | the mode is executable exactly when one of the owner, group or other execute bits (0o100, 0o010, 0o001) is set |
| `Permissions.New` | src/informer.rs:82-98 | slot 0 is always `Some(Read)`; slot 1 is `Some(Write)` exactly when not read-only and empty otherwise; slot 2 is `Some(Executable)` exactly when an execute bit is set and empty exactly when `mode & 0o111 == 0`; a filled slot holds that slot's permission |
| `Permissions.ExecutableIgnoresReadonly` | src/informer.rs:85-95 | the execute slot is the same whatever the read-only flag |
| `Permissions.NewDeterminedBy` | src/informer.rs:82-98 | two permission values give the same slots exactly when they agree on read-only and on executability |
| `Permissions.Label` | src/informer.rs:106-114 | each permission prints as a non-empty word of at most 10 chars that has no `+` and no newline |
| `Permissions.LabelInjective` | src/informer.rs:106-114 | distinct permissions print distinct labels, and equal labels mean equal permissions |
| `Permissions.SlotLabel` | src/informer.rs:47-50 | an empty slot prints as `""` and a filled one as a non-empty label, with no `+` or newline |
| `Permissions.SlotLabels` | src/informer.rs:45-51 | the three slots are rendered in slot order |
| `Permissions.JoinLabels` | src/informer.rs:45-52 | the permissions text is slot 0, `+`, slot 1, `+`, slot 2, with empty slots rendered as `""` and kept |
| `Permissions.JoinLabelsShape` | src/informer.rs:45-52 | the permissions text always holds exactly two `+`, whatever the slots |
| `Permissions.JoinLabelsSingleLine` | src/informer.rs:45-53 | the permissions text has at most 32 chars and no newline, so it always fits its 50-char field |
| `Permissions.JoinLabelsOfNew` | src/informer.rs:45-52 | for a classified value the text starts with `Read+`, then it has `Write` unless read-only, then `+`, then `Executable` when an execute bit is set |
| `Permissions.ParseJoinLabels` | src/informer.rs:45-52 | the permissions text can be read back into the very slots it was made from |
| `Kind.From` | src/informer.rs:123-134 | when some type test holds, the kind is `Regular` exactly when `is_file`, `Folder` exactly when `is_dir` and not `is_file`, and `Symlink` exactly when only `is_symlink` holds; the unreachable branch becomes the precondition |
| `Kind.FromExclusive` | src/informer.rs:123-134 | when exactly one test holds, that test names the kind |
| `Kind.Label` | src/informer.rs:137-145 | `Regular` prints as `"Regular"`, `Folder` as `"Folder"` and `Symlink` as `"Symlink"`: 6 or 7 chars, no newline |
| `Kind.LabelInjective` | src/informer.rs:137-145 | distinct kinds print distinct labels, and equal labels mean equal kinds |
| `Date.Stamp` | src/informer.rs:171-176 | a missing timestamp gives `"unknown"`; a present one gives the formatted instant |
| `Date.From` | src/informer.rs:167-183 | created and modified come from their own timestamps or are `"unknown"`; accessed always equals modified |
| `Date.FromIgnoresAccessTime` | src/informer.rs:177-179 | changing the reported access time changes nothing in the result |
| `Informer.Assemble` | src/informer.rs:27-35 | a path with no final component is named `"unknown"` (`UNNAMED`); the size text is kept as given; the permissions, kind and dates are those the three classifiers give; slot 0 holds `Read` and accessed equals modified |
| `Formatting.Repeat` | src/informer.rs:41 | `"─".repeat(65)` gives exactly 65 copies of the glyph |
| `Informer.Border` | src/informer.rs:60-70 | every border is 67 chars, starting and ending with its corner glyphs |
| `Informer.BorderRule` | src/informer.rs:41 | between its corners a border is all `─` |
| `Formatting.Truncate` | src/informer.rs:43 | a `.63` precision keeps the first 63 chars of a longer text and leaves a shorter one whole |
| `Formatting.Center` | src/informer.rs:43 | a `^` alignment never makes a text shorter, and widens a shorter text to the width |
| `Formatting.CenterContent` | src/informer.rs:43 | a centred text sits whole between spaces, with `floor(pad/2)` on the left and `ceil(pad/2)` on the right |
| `Informer.NameLine` | src/informer.rs:43 | the name line is always exactly 67 chars, whatever the name |
| `Informer.NameLineContent` | src/informer.rs:43 | the name line is framed by `"│ "` and `" │"`; a name of at most 63 chars appears whole and centred between spaces; a longer one shows only its first 63 chars |
| `Formatting.PadEnd` | src/informer.rs:44 | a `<` alignment widens a shorter text to the width and leaves a longer one as it is |
| `Formatting.PadEndContent` | src/informer.rs:44 | a left-aligned text keeps its chars first, followed only by spaces |
| `Informer.FieldLine` | src/informer.rs:44 | a field line is 4 chars of frame, then the title, then the value padded to its width or longer |
| `Informer.FieldLineContent` | src/informer.rs:44 | a field line shows the frame and title, then the value whole, then only spaces up to `" │"` |
| `Informer.PermissionsLine` | src/informer.rs:53 | the permissions line is always 67 chars and holds no newline, since the joined labels always fit in 50 |
| `Informer.TypeLine` | src/informer.rs:54 | the Type line is `"│ Type: "`, then the kind's word unpadded, then `" │"`: 10 chars more than the word, no newline |
| `Informer.PermissionsLineContent` | src/informer.rs:53 | the joined permission text stands whole on its line, straight after `"│ Permissions: "` |
| `Informer.PanelLines` | src/informer.rs:60-70 | the panel has ten lines, one per `write!` |
| `Informer.IntendedPanelLines` | src/informer.rs:54 | the padded panel differs from the written one only in its Type line |
| `Informer.Panel` | src/informer.rs:60-70 | the panel text is as long as its ten lines together plus nine newlines |
| `Informer.UniformWidth` | src/informer.rs:41-70 | the nine lines other than Type are 67 chars exactly when size, created, modified and accessed fit their fields; the permissions always fit; a longer field makes its line longer instead of being cut; the Type line is 10 chars more than the kind's word |
| `Informer.TypeLineNeverAligned` | src/informer.rs:54 | as written, the Type line is shorter than 67 chars for every file, so it never matches the border |
| `Informer.IntendedUniformWidth` | src/informer.rs:41-70 | with the kind padded, all ten lines are 67 chars exactly when size, created, modified and accessed fit |
| `Informer.FieldsShownWhole` | src/informer.rs:44-57 | the size, the permission text and the three dates appear whole on their lines, right after their titles |
| `Informer.NoNewlineInLines` | src/informer.rs:41-57 | no line of the panel contains a newline when the name, the size and the dates contain none |
| `Informer.PanelSplitsIntoLines` | src/informer.rs:60-70 | when the name, size and dates hold no newline, splitting the panel at its newlines gives back exactly its ten lines |
| `Informer.WroteLine` | src/informer.rs:60-69 | writing a line and a newline extends the output by the join of the lines so far |
| `Informer.WroteLastLine` | src/informer.rs:70 | writing the closing border without a newline completes the panel |
| `Informer.Fmt` | src/informer.rs:39-71 | the ten `write!` calls append exactly the panel: the ten lines joined by newlines, with none after the last |
| `Formatting.Formatter.WriteStr` | src/informer.rs:60-70 | a `write!` appends its text to the buffer and changes nothing else |
| `Formatting.Join` | src/informer.rs:52 | a join of n pieces has the pieces' chars plus n - 1 separators |
| `Formatting.JoinSeparators` | src/informer.rs:52 | joining n pieces that contain no separator adds exactly n - 1 separators |
| `Formatting.JoinThree` | src/informer.rs:52 | joining three pieces is piece, separator, piece, separator, piece |
| `Formatting.SplitJoin` | src/informer.rs:52 | splitting a join at its separator gives back the pieces when none contains the separator |
| `Formatting.JoinLast` | src/informer.rs:60-70 | a join of the lines is the join of all but the last, a separator, and the last |

## Left out

- `File::new` opens the file and reads its metadata (src/informer.rs:20-25). This is OS I/O, and it aborts with `expect` on failure. The model starts from the metadata values instead.
- `Path::file_name` and `to_str().unwrap()` are library path handling (src/informer.rs:27-29). The model takes the final path component as an `Option<string>`. The `unwrap` panic on a name that is not UTF-8 is not modelled.
- The size text is an `f32` division printed in float notation (src/informer.rs:30). Floating point is not modelled; the size text is an input string. The code has no tiered byte/KB/MB/GB scaler, so none is modelled.
- `FileDate::parse_time` (src/informer.rs:155-164) uses the `time` crate's duration arithmetic and the machine's local UTC offset, and it can panic. It becomes the uninterpreted parameter `parseTime`.
- `Permissions::readonly()` comes from the standard library. The model takes the read-only flag as an input independent of the mode, which is more general than the library's rule.
- `Informer.Fmt`: the `?` after each `write!` passes on a failed write. The model's `Formatter` always accepts a write, so that error path is absent.
- `Display for FilePermissions` and `Display for FileKind` write to a `Formatter` too. The model gives their words as the functions `Permissions.Label` and `Kind.Label`. `format!("{}", perm)` at src/informer.rs:48 sets no width, so the word is all it yields. At src/informer.rs:54 the width `{:<57}` is ignored by the `write!` in `Display for FileKind`, and `Informer.TypeLine` models exactly that.
- `Kind.From` takes the three type tests as free inputs. In the program the metadata is read from the opened handle (src/informer.rs:22-24), and opening follows symlinks, so `is_symlink` never holds there and `Symlink` never arises. A socket already fails at the `open` and aborts at its `expect`, and a FIFO blocks in `open`. So only a device-like entry that opens reaches the `unreachable!`. The model does not capture these restrictions, which come from the operating system.
- `src/main.rs` collects the arguments and prints one panel per path. It and the argument parser it calls are not part of this model.

## Findings

| source | as written | input that shows it | evidently intended | confidence | as-written member | corrected member |
|---|---|---|---|---|---|---|
| src/informer.rs:54 | `{:<57}` is applied to `self.kind`, but `Display for FileKind` (src/informer.rs:137-145) writes with `write!`, which ignores the width, so the Type line is `"│ Type: Regular │"` | any file; a regular file gives a 17-char Type line between 67-char borders | the kind padded to 57 like the other fields, for a 67-char Type line (e.g. by `f.pad` in `Display for FileKind`) | not executed | `Informer.TypeLineNeverAligned` | `Informer.IntendedUniformWidth` |

`Informer.PanelLines`, `Informer.Panel` and `Informer.Fmt` describe the panel
as the code writes it. `Informer.IntendedPanelLines` is the corrected panel:
the same lines with the kind padded like the other fields.
