/**
 A reader, written independently of the writer, for the subset of CSV the
 export produces: every data field in double quotes (rule 5 of section 2 of
 RFC 4180), a doubled quote inside a field standing for one quote (rule 7),
 fields separated by commas (rule 4) and records by LF line breaks. The
 header line is not quoted in this export, so the reader splits it at
 commas.
 */
module CsvReader {
  import opened Wrappers
  import opened Strings

  /** Reads the inside of a quoted field, just after its opening quote, up to
      its closing quote. Returns the field's text and what follows the
      closing quote. */
  function ReadQuoted(s: string): (r: Option<(string, string)>)
    ensures r.Some? ==> |r.value.1| < |s|
  {
    if |s| == 0 then None
    else if s[0] == '"' then
      if 2 <= |s| && s[1] == '"' then
        match ReadQuoted(s[2..])
        case None => None
        case Some((f, rest)) => Some(("\"" + f, rest))
      else Some(("", s[1..]))
    else
      match ReadQuoted(s[1..])
      case None => None
      case Some((f, rest)) => Some(([s[0]] + f, rest))
  }

  /** Reads one record of quoted fields. It stops at a line break (which it
      leaves in place) or at the end of the text. */
  function ReadRecord(s: string): (r: Option<(seq<string>, string)>)
    ensures r.Some? ==> |r.value.1| < |s|
    ensures r.Some? ==> |r.value.0| > 0
    ensures r.Some? ==> r.value.1 == [] || r.value.1[0] == '\n'
    decreases |s|
  {
    if |s| == 0 || s[0] != '"' then None
    else
      match ReadQuoted(s[1..])
      case None => None
      case Some((f, rest)) =>
        if |rest| == 0 || rest[0] == '\n' then Some(([f], rest))
        else if rest[0] == ',' then
          match ReadRecord(rest[1..])
          case None => None
          case Some((fs, after)) => Some(([f] + fs, after))
        else None
  }

  /** Reads the records that follow the header: each one preceded by a line break. */
  function ReadRecords(s: string): (r: Option<seq<seq<string>>>)
    decreases |s|
  {
    if |s| == 0 then Some([])
    else if s[0] != '\n' then None
    else
      match ReadRecord(s[1..])
      case None => None
      case Some((fs, rest)) =>
        match ReadRecords(rest)
        case None => None
        case Some(more) => Some([fs] + more)
  }

  /** Cuts the text before its first line break from the rest (which keeps
      the line break). */
  function FirstLine(s: string): (r: (string, string))
    ensures r.0 + r.1 == s
    ensures '\n' !in r.0
    ensures r.1 == [] || r.1[0] == '\n'
  {
    if |s| == 0 || s[0] == '\n' then ("", s)
    else
      var (line, rest) := FirstLine(s[1..]);
      ([s[0]] + line, rest)
  }

  /** Reads a whole document: the header's names and the records' fields. */
  function ReadDocument(s: string): Option<(seq<string>, seq<seq<string>>)>
  {
    var (header, rest) := FirstLine(s);
    match ReadRecords(rest)
    case None => None
    case Some(records) => Some((Split(header, ','), records))
  }
}
