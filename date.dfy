/**
 * `FileDate`: the three timestamps of an entry as text. Turning an instant
 * into local date-time text (`FileDate::parse_time`) depends on the time
 * zone of the machine, so it is a parameter `parseTime` here.
 */
module Date {
  import opened Wrappers

  /** The text shown for a value the platform cannot report. */
  const UNKNOWN: string := "unknown"

  /**
   * The three timestamps `std::fs::Metadata` may report (`created`,
   * `modified`, `accessed`); `None` stands for the `Err` of an unsupported one.
   */
  datatype Times<T> = Times(created: Option<T>, modified: Option<T>, accessed: Option<T>)

  datatype FileDate = FileDate(created: string, modified: string, accessed: string)

  /** One timestamp as text: `map_or_else` with the sentinel for a missing instant. */
  function Stamp<T>(t: Option<T>, parseTime: T -> string): (r: string)
    ensures t.None? ==> r == UNKNOWN
    ensures t.Some? ==> r == parseTime(t.value)
  {
    match t
    case None => UNKNOWN
    case Some(v) => parseTime(v)
  }

  /**
   * `FileDate::from`. The accessed field is taken from the modification
   * time, exactly as the created and modified fields are from theirs.
   */
  function From<T>(m: Times<T>, parseTime: T -> string): (r: FileDate)
    ensures m.created.None? ==> r.created == UNKNOWN
    ensures m.created.Some? ==> r.created == parseTime(m.created.value)
    ensures m.modified.None? ==> r.modified == UNKNOWN
    ensures m.modified.Some? ==> r.modified == parseTime(m.modified.value)
    ensures r.accessed == r.modified
  {
    var created := Stamp(m.created, parseTime);
    var modified := Stamp(m.modified, parseTime);
    var accessed := Stamp(m.modified, parseTime);
    FileDate(created, modified, accessed)
  }

  /** The reported access time has no influence on the result. */
  lemma FromIgnoresAccessTime<T>(m: Times<T>, a: Option<T>, parseTime: T -> string)
    ensures From(m.(accessed := a), parseTime) == From(m, parseTime)
  {
  }
}
