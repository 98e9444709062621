/** The cases exercised by the unit tests of xml_checker.py (tests/test_xml_checker.py),
    stated as facts about the specification of the scan. */
module ScannerScenarios {
  import opened Strings
  import opened Validator
  import opened Scanner

  /** A name whose extension is upper case is selected ("test.XML"). */
  lemma UpperCaseExtensionSelected()
    ensures IsCandidate("test.XML")
  {
    IsCandidateSpelled("test.XML");
  }

  /** A name with ".xml" in the middle is not selected ("a.xml.bak"). */
  lemma InnerXmlNotSelected()
    ensures !IsCandidate("a.xml.bak")
  {
    IsCandidateSpelled("a.xml.bak");
  }

  /** A file of another type is not selected ("data.txt"). */
  lemma OtherExtensionNotSelected()
    ensures !IsCandidate("data.txt")
  {
    IsCandidateSpelled("data.txt");
  }

  /** A name that is only the extension is selected too: the test is a
      suffix test, not a comparison of the extension after the last dot. */
  lemma BareExtensionSelected()
    ensures IsCandidate(".xml")
  {
    IsCandidateSpelled(".xml");
  }

  /** One directory holding a good and a malformed XML file, in that order:
      both are handed to the validator, in that order. */
  lemma {:induction false} GoodThenBadCandidates(root: Path, good: string, bad: string)
    requires IsCandidate(good) && IsCandidate(bad)
    ensures Candidates([WalkEntry(root, [good, bad])]) == [Join(root, good), Join(root, bad)]
  {
    var names := [good, bad];
    assert names[1..] == [bad] && [bad][1..] == [];
    assert CandidatesIn(root, [bad]) == [Join(root, bad)];
    assert CandidatesIn(root, names) == [Join(root, good)] + CandidatesIn(root, [bad]);
    assert [WalkEntry(root, names)][1..] == [];
  }

  /** The good file parses and the malformed one does not: the scan prints the
      diagnostic of the malformed one, then the heading, then its path. */
  lemma {:induction false} GoodThenBadOutput(good: Path, bad: Path, parse: Path -> ParseOutcome)
    requires parse(good).Parsed? && parse(bad).ParseError?
    ensures Failing([good, bad], parse) == [bad]
    ensures Diagnostics([good, bad], parse) + Report(Failing([good, bad], parse))
            == [bad + NotWellFormedTag + parse(bad).message, BadHeading, bad]
  {
    var paths := [good, bad];
    assert paths[1..] == [bad] && [bad][1..] == [];
    assert Failing([bad], parse) == [bad];
    var line := bad + NotWellFormedTag + parse(bad).message;
    assert CheckXmlFormat(bad, parse(bad)).printed == [line];
    assert Diagnostics([bad], parse) == [line] + Diagnostics([], parse);
    assert Diagnostics(paths, parse) == [line];
  }

  /** What the test inspects: the text on standard output contains the
      malformed file's path and the words "not well-formed". */
  lemma GoodThenBadStdout(good: Path, bad: Path, parse: Path -> ParseOutcome)
    requires parse(good).Parsed? && parse(bad).ParseError?
    ensures var text := Stdout(Diagnostics([good, bad], parse) + Report(Failing([good, bad], parse)));
            Occurs(bad, text) && Occurs("not well-formed", text)
  {
    GoodThenBadOutput(good, bad, parse);
    var printed := [bad + NotWellFormedTag + parse(bad).message, BadHeading, bad];
    PrintedOccursInStdout(printed, 2);
    PrintedOccursInStdout(printed, 1);
    assert StartsWith(BadHeading[25..], "not well-formed");
    OccursTransitive("not well-formed", BadHeading, Stdout(printed));
  }
}
