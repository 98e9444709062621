/** The per-file check `check_xml_format`: parse a file, turn every failure
    into `False` plus one printed diagnostic line, never raise. The XML
    parser itself is not modelled: its outcome on a path is an input. */
module Validator {
  import opened Strings

  type Path = string

  /** What `ET.parse(path)` does: return normally, raise `ET.ParseError`,
      or raise any other `Exception` (missing file, no permission, ...).
      `message` stands for the library's `str(e)`, an opaque string. */
  datatype ParseOutcome =
    | Parsed
    | ParseError(message: string)
    | OtherError(message: string)

  /** The verdict `check_xml_format` returns and the lines it prints. */
  datatype Checked = Checked(wellFormed: bool, printed: seq<string>)

  const NotWellFormedTag := ": XML is not well-formed. Error: "
  const UnexpectedTag := ": Unexpected error: "

  /** The text that separates the path from the parser's message in the
      diagnostic for a failed parse; empty for a successful one. */
  function KindTag(outcome: ParseOutcome): string
  {
    match outcome
    case Parsed => ""
    case ParseError(_) => NotWellFormedTag
    case OtherError(_) => UnexpectedTag
  }

  /** `check_xml_format(path)` when `ET.parse(path)` has outcome `outcome`.
      The result is a plain boolean (no exception escapes); success prints
      nothing; a failure prints exactly one line, which begins with the path,
      goes on with the wording of its kind and ends with the parser's message. */
  function CheckXmlFormat(path: Path, outcome: ParseOutcome): (r: Checked)
    ensures r.wellFormed <==> outcome.Parsed?
    ensures r.wellFormed ==> r.printed == []
    ensures !r.wellFormed ==>
      && |r.printed| == 1
      && StartsWith(r.printed[0], path + KindTag(outcome))
      && EndsWith(r.printed[0], outcome.message)
      && |r.printed[0]| == |path| + |KindTag(outcome)| + |outcome.message|
  {
    match outcome
    case Parsed => Checked(true, [])
    case ParseError(e) => Checked(false, [path + NotWellFormedTag + e])
    case OtherError(e) => Checked(false, [path + UnexpectedTag + e])
  }

  /** A diagnostic line starts with the path of the file it is about. */
  lemma DiagnosticNamesFile(path: Path, outcome: ParseOutcome)
    requires !outcome.Parsed?
    ensures StartsWith(CheckXmlFormat(path, outcome).printed[0], path)
  {
  }

  /** The message of the parser can be read back from the diagnostic line. */
  lemma DiagnosticCarriesMessage(path: Path, outcome: ParseOutcome)
    requires !outcome.Parsed?
    ensures CheckXmlFormat(path, outcome).printed[0][|path| + |KindTag(outcome)|..] == outcome.message
  {
  }

  /** A parse failure and an access failure on the same path never print the
      same line: their wordings differ right after the path and ": ". */
  lemma DiagnosticsDistinguishKinds(path: Path, parseMessage: string, otherMessage: string)
    ensures CheckXmlFormat(path, ParseError(parseMessage)).printed
         != CheckXmlFormat(path, OtherError(otherMessage)).printed
  {
    var a := CheckXmlFormat(path, ParseError(parseMessage)).printed[0];
    var b := CheckXmlFormat(path, OtherError(otherMessage)).printed[0];
    assert a[|path| + 2] == 'X';
    assert b[|path| + 2] == 'U';
  }
}
