/** `FileKind`: what sort of entry a path names, and its label on the panel. */
module Kind {

  datatype FileKind = Regular | Folder | Symlink

  /** The three tests `std::fs::FileType` answers: `is_file`, `is_dir`, `is_symlink`. */
  datatype FileType = FileType(isFile: bool, isDir: bool, isSymlink: bool)

  /**
   * An entry the classifier can name; for any other (such as a device node
   * that opens) `FileKind::from` reaches `unreachable!` and aborts. The
   * three tests are free inputs here: in the program the metadata comes
   * from an opened handle, which follows symlinks, so `is_symlink` is never
   * true there.
   */
  predicate Classifiable(t: FileType)
  {
    t.isFile || t.isDir || t.isSymlink
  }

  /** `FileKind::from`: the first test that holds wins, in the order file, directory, symlink. */
  function From(t: FileType): (r: FileKind)
    requires Classifiable(t)
    ensures r == Regular <==> t.isFile
    ensures r == Folder <==> !t.isFile && t.isDir
    ensures r == Symlink <==> !t.isFile && !t.isDir && t.isSymlink
  {
    if t.isFile then Regular
    else if t.isDir then Folder
    else if t.isSymlink then Symlink
    else assert false; Symlink
  }

  /** When exactly one test holds, as for an entry the OS reports, that test decides the kind. */
  lemma FromExclusive(t: FileType, k: FileKind)
    requires (t.isFile && !t.isDir && !t.isSymlink && k == Regular)
          || (!t.isFile && t.isDir && !t.isSymlink && k == Folder)
          || (!t.isFile && !t.isDir && t.isSymlink && k == Symlink)
    ensures From(t) == k
  {
  }

  /** `Display for FileKind`. */
  function Label(k: FileKind): (r: string)
    ensures k == Regular ==> r == "Regular"
    ensures k == Folder ==> r == "Folder"
    ensures k == Symlink ==> r == "Symlink"
    ensures 6 <= |r| <= 7
    ensures '\n' !in r
  {
    match k
    case Regular => "Regular"
    case Folder => "Folder"
    case Symlink => "Symlink"
  }

  /** Distinct kinds are shown by distinct labels. */
  lemma LabelInjective(k: FileKind, l: FileKind)
    ensures Label(k) == Label(l) <==> k == l
  {
    if k != l && k != Folder && l != Folder {
      assert Label(k)[0] != Label(l)[0];
    }
  }
}
