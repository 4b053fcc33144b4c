/**
 * `FilePermissions`: the classification of an entry's permission bits into
 * three fixed slots (read, write, execute) and the labels the panel shows.
 */
module Permissions {
  import opened Wrappers
  import opened Formatting

  datatype FilePermission = Read | Write | Executable

  /** What `std::fs::Permissions` offers on Unix: the read-only flag and the mode word. */
  datatype RawPermissions = RawPermissions(readonly: bool, mode: bv32)

  /** `[Option<FilePermissions>; 3]`: slot 0 read, slot 1 write, slot 2 execute. */
  type Slots = s: seq<Option<FilePermission>> | |s| == 3 witness [None, None, None]

  /** `0o111`: the owner (`0o100`), group (`0o010`) and other (`0o001`) execute bits. */
  const EXECUTE_MASK: bv32 := 0x49

  /** The permission that may occupy slot `i`. */
  function SlotOrder(i: nat): FilePermission
    requires i < 3
  {
    [Read, Write, Executable][i]
  }

  /** `FilePermissions::is_executable`: any of the three execute bits is set. */
  function IsExecutable(mode: bv32): (r: bool)
    ensures r <==> mode & 0x40 != 0 || mode & 0x08 != 0 || mode & 0x01 != 0
  {
    mode & EXECUTE_MASK != 0
  }

  /** `FilePermissions::new`. */
  function New(value: RawPermissions): (r: Slots)
    ensures r[0] == Some(Read)
    ensures r[1] == Some(Write) <==> !value.readonly
    ensures r[1] == None <==> value.readonly
    ensures r[2] == Some(Executable) <==> value.mode & 0x40 != 0 || value.mode & 0x08 != 0 || value.mode & 0x01 != 0
    ensures r[2] == None <==> value.mode & EXECUTE_MASK == 0
    ensures forall i :: 0 <= i < 3 && r[i].Some? ==> r[i].value == SlotOrder(i)
  {
    match value.readonly
    case true =>
      if IsExecutable(value.mode) then [Some(Read), None, Some(Executable)]
      else [Some(Read), None, None]
    case false =>
      if IsExecutable(value.mode) then [Some(Read), Some(Write), Some(Executable)]
      else [Some(Read), Some(Write), None]
  }

  /** The execute slot depends on the mode alone, never on the read-only flag. */
  lemma ExecutableIgnoresReadonly(mode: bv32, a: bool, b: bool)
    ensures New(RawPermissions(a, mode))[2] == New(RawPermissions(b, mode))[2]
  {
  }

  /** Two permission values classify alike exactly when they agree on read-only and on executability. */
  lemma NewDeterminedBy(v: RawPermissions, w: RawPermissions)
    ensures New(v) == New(w) <==> v.readonly == w.readonly && IsExecutable(v.mode) == IsExecutable(w.mode)
  {
    if New(v) == New(w) {
      assert New(v)[1] == New(w)[1] && New(v)[2] == New(w)[2];
    }
  }

  /** `Display for FilePermissions`. */
  function Label(p: FilePermission): (r: string)
    ensures 0 < |r| <= 10
    ensures '+' !in r && '\n' !in r
  {
    match p
    case Read => "Read"
    case Write => "Write"
    case Executable => "Executable"
  }

  /** Distinct permissions are shown by distinct labels. */
  lemma LabelInjective(p: FilePermission, q: FilePermission)
    ensures Label(p) == Label(q) <==> p == q
  {
    if p != q {
      assert |Label(p)| != |Label(q)|;
    }
  }

  /** One slot as the panel shows it: its label, or nothing for an empty slot. */
  function SlotLabel(slot: Option<FilePermission>): (r: string)
    ensures slot.None? <==> r == ""
    ensures '+' !in r && '\n' !in r && |r| <= 10
  {
    match slot
    case Some(p) => Label(p)
    case None => ""
  }

  /** The rendered slots, in slot order. */
  function SlotLabels(slots: Slots): (r: seq<string>)
    ensures |r| == 3
    ensures forall i :: 0 <= i < 3 ==> r[i] == SlotLabel(slots[i])
  {
    [SlotLabel(slots[0]), SlotLabel(slots[1]), SlotLabel(slots[2])]
  }

  /**
   * The permissions text of the panel: every slot rendered, empty ones as
   * `""`, joined by `"+"`. Empty slots are kept rather than skipped.
   */
  function JoinLabels(slots: Slots): (r: string)
    ensures r == SlotLabel(slots[0]) + "+" + SlotLabel(slots[1]) + "+" + SlotLabel(slots[2])
  {
    var labels := SlotLabels(slots);
    JoinThree(labels[0], labels[1], labels[2], '+');
    assert labels == [labels[0], labels[1], labels[2]];
    Join(labels, '+')
  }

  /** Because empty slots are kept, the text always holds exactly two `+`. */
  lemma JoinLabelsShape(slots: Slots)
    ensures multiset(JoinLabels(slots))['+'] == 2
  {
    JoinSeparators(SlotLabels(slots), '+');
  }

  /** The permissions text is one short line. */
  lemma JoinLabelsSingleLine(slots: Slots)
    ensures |JoinLabels(slots)| <= 32
    ensures '\n' !in JoinLabels(slots)
  {
  }

  /**
   * What `New` makes of a permission value, as the panel shows it: `"Read"`
   * always, then `"Write"` unless read-only, then `"Executable"` if an
   * execute bit is set, with the two `+` always present (`"Read++"`,
   * `"Read+Write+"`, `"Read++Executable"`, `"Read+Write+Executable"`).
   */
  lemma JoinLabelsOfNew(value: RawPermissions)
    ensures JoinLabels(New(value)) ==
              "Read" + "+" + (if value.readonly then "" else "Write") + "+"
              + (if IsExecutable(value.mode) then "Executable" else "")
  {
    var labels := SlotLabels(New(value));
    JoinThree(labels[0], labels[1], labels[2], '+');
    assert labels == [labels[0], labels[1], labels[2]];
  }

  /** Reading one slot back from its label. */
  function ParseSlot(s: string): (r: Option<Option<FilePermission>>)
  {
    if s == "" then Some(None)
    else if s == "Read" then Some(Some(Read))
    else if s == "Write" then Some(Some(Write))
    else if s == "Executable" then Some(Some(Executable))
    else None
  }

  /** Reading the three slots back from the permissions text. */
  function Parse(s: string): (r: Option<Slots>)
  {
    var parts := Split(s, '+');
    if |parts| != 3 then None
    else
      match (ParseSlot(parts[0]), ParseSlot(parts[1]), ParseSlot(parts[2]))
      case (Some(a), Some(b), Some(c)) => Some([a, b, c])
      case _ => None
  }

  lemma ParseSlotLabel(slot: Option<FilePermission>)
    ensures ParseSlot(SlotLabel(slot)) == Some(slot)
  {
  }

  /** The permissions text loses nothing: all three slots can be read back from it. */
  lemma ParseJoinLabels(slots: Slots)
    ensures Parse(JoinLabels(slots)) == Some(slots)
  {
    var labels := SlotLabels(slots);
    SplitJoin(labels, '+');
    var parts := Split(JoinLabels(slots), '+');
    assert parts == labels;
    ParseSlotLabel(slots[0]);
    ParseSlotLabel(slots[1]);
    ParseSlotLabel(slots[2]);
    assert ParseSlot(parts[0]) == Some(slots[0]);
    assert ParseSlot(parts[1]) == Some(slots[1]);
    assert ParseSlot(parts[2]) == Some(slots[2]);
    assert [slots[0], slots[1], slots[2]] == slots;
  }
}
