# XML well-formedness scanner — a Dafny model

`xml_checker.py` walks a directory tree. It picks out every file whose lower-cased name
ends in `.xml` and asks `xml.etree.ElementTree` to parse it. The path of each file that
fails goes on a `bad_files` list, in the order the walk visits it. After the walk it
prints either the line `All XML files are well-formed.` or a heading followed by the
bad paths, one per line. The per-file check `check_xml_format` turns every failure of
the parse into a result instead of an exception; what still escapes is an exception
outside `Exception` and a failure of its own `print` (see "## Left out"). It returns `True` when the parse succeeds. Otherwise it
prints one diagnostic line and returns `False`.
That line starts with the path, and its wording depends on whether the parser reported
malformed XML or some other failure occurred.

This model contains that scanner and that per-file check. The two collaborators the
code calls are inputs:

- the directory walk (`os.walk`) is a sequence of `WalkEntry(root, files)` values,
  in the order the walk yields them;
- the parser (`ET.parse`) is a function `parse: Path -> ParseOutcome`. It answers
  `Parsed`, `ParseError(message)` or `OtherError(message)` for each path.

Standard output is modelled as the sequence of strings passed to `print`, in order.
`Scanner.Stdout` renders that sequence as text, with one newline after each string.
Wherever this README or the contracts speak of a printed "line", they mean one `print`
argument, not one line of the text on standard output. A POSIX file name may contain a
newline; such a path prints as several text lines, and then the text alone no longer
tells where one bad path ends and the next begins.

Files:

- `strings.dfy` (module `Strings`): ASCII lower-casing, `startswith`, `endswith`.
- `validator.dfy` (module `Validator`): `check_xml_format`.
- `scanner.dfy` (module `Scanner`): the extension test, `os.path.join`, the
  specification functions of the scan, and the scan itself. The scan is three methods
  with loops: one per loop of `check_files_in_directory` (over walk entries, over the
  file names of one entry, over the bad files when printing), and the method
  `CheckFilesInDirectory` chains them.
- `scenarios.dfy` (module `ScannerScenarios`): the cases from the unit tests, stated
  as facts about the specification.

The specification is built from these functions:

- `Candidates(walk)`: every joined candidate path, in visiting order.
- `Failing(paths, parse)`: the paths whose check returns `False`, in order.
- `Diagnostics(paths, parse)`: the lines the checks print, in order.
- `Report(bad)`: the closing summary.

`CheckFilesInDirectory`'s postcondition states every output exactly in terms of these
functions. The walk and the parser are its only inputs, so two scans of an unchanged
tree give the same `bad_files` and print the same lines.

## Model

| member | source | states |
|---|---|---|
| Strings.LowerAt | xml_checker.py:33 | lower-casing keeps the length and lowers each character on its own (ASCII only) |
| Scanner.IsCandidateSpelled | xml_checker.py:33 | `name.lower().endswith('.xml')` holds exactly when the name ends in a dot followed by x, m, l, each in either case |
| Scanner.Join | xml_checker.py:34 | `os.path.join(root, name)` ends with `name`, and starts with `root` unless `name` is absolute |
| Scanner.JoinKeepsCandidacy | xml_checker.py:33-34 | a joined path passes the extension test exactly when its file name does |
| Validator.CheckXmlFormat | xml_checker.py:9-22 | the result is `True` exactly when the parse succeeds; success prints nothing; any failure prints exactly one line (one `print` argument): the path, then the wording of its kind, then the parser's message |
| Validator.DiagnosticNamesFile | xml_checker.py:17-22 | every diagnostic line starts with the path of its file |
| Validator.DiagnosticCarriesMessage | xml_checker.py:17-22 | the parser's message is the rest of the line after the path and the kind's wording |
| Validator.DiagnosticsDistinguishKinds | xml_checker.py:17-22 | a parse error and any other failure on the same path never print the same line |
| Scanner.CandidatesInAppend | xml_checker.py:32-34 | selection over the names of one directory distributes over concatenation |
| Scanner.CandidatesAppend | xml_checker.py:31-34 | selection over a walk distributes over concatenation of walk entries |
| Scanner.FailingAppend | xml_checker.py:35-36 | collecting failures distributes over concatenation |
| Scanner.DiagnosticsAppend | xml_checker.py:35 | the printed diagnostics distribute over concatenation |
| Scanner.CandidatesMembers | xml_checker.py:31-35 | a path is handed to the validator exactly when it is the join of some walked root with one of its file names that passes the extension test |
| Scanner.CandidatesAreXml | xml_checker.py:31-35 | every path handed to the validator passes the extension test itself, so no non-candidate file is ever validated or reported |
| Scanner.FailingMembers | xml_checker.py:35-36 | a path is in `bad_files` exactly when it was checked and its parse failed |
| Scanner.FailingIsSubsequence | xml_checker.py:28-36 | `bad_files` is a subsequence of the checked paths in visiting order (not re-sorted) |
| Scanner.FailingCount | xml_checker.py:28-36 | each path occurs in `bad_files` as many times as it was checked when its parse fails, and not at all otherwise (nothing deduplicated or dropped) |
| Scanner.FailingKeepsAll | xml_checker.py:28-36 | when every check fails, `bad_files` is the whole sequence of checked paths, repeats included (not deduplicated) |
| Scanner.FailingNone | xml_checker.py:28-36 | when every check succeeds (or nothing is checked), `bad_files` is empty |
| Scanner.DiagnosticsMatchFailing | xml_checker.py:31-36 | there is one diagnostic line per bad file, and the i-th one starts with the i-th bad path |
| Scanner.BadFilesGrowByAppend | xml_checker.py:28-36 | `bad_files` after part of the walk is a prefix of `bad_files` after more of it: the list only grows by appending |
| Scanner.ReportSuccessIff | xml_checker.py:38-43 | the summary is the success line alone exactly when `bad_files` is empty |
| Scanner.ReportRoundTrip | xml_checker.py:38-41 | the bad paths, in order, can be read back from the summary: a heading followed by one `print` argument per bad path (not recoverable from the text alone when a path contains a newline) |
| Scanner.SuccessLineIffAllParse | xml_checker.py:35-43 | the scan prints only the success line exactly when every checked file parses, a walk with no candidate included |
| Scanner.PrintedOccursInStdout | xml_checker.py:39-43 | every printed string occurs as a substring of the text on standard output |
| Scanner.OccursTransitive | xml_checker.py:39-43 | a substring of a printed string is a substring of the text on standard output |
| Scanner.CheckNames | xml_checker.py:32-36 | the inner loop over one directory's names hands exactly the candidate paths to the validator, in order, and collects the failing ones and their diagnostics |
| Scanner.CheckWalk | xml_checker.py:31-36 | the outer loop over the walk entries yields `Candidates(walk)`, the failing ones among them, and their diagnostics |
| Scanner.PrintSummary | xml_checker.py:38-43 | prints the success line, or the heading followed by every bad path in order |
| Scanner.CheckFilesInDirectory | xml_checker.py:24-43 | validates exactly the candidate paths in visiting order; `bad_files` is the subsequence that fails; the output is the diagnostics followed by the summary |
| ScannerScenarios.UpperCaseExtensionSelected | tests/test_xml_checker.py:108-113 | `test.XML` is selected |
| ScannerScenarios.InnerXmlNotSelected | xml_checker.py:33 | `a.xml.bak` is not selected |
| ScannerScenarios.OtherExtensionNotSelected | tests/test_xml_checker.py:115-121 | `data.txt` is not selected |
| ScannerScenarios.BareExtensionSelected | xml_checker.py:33 | a file named just `.xml` is selected (a suffix test) |
| ScannerScenarios.GoodThenBadCandidates | tests/test_xml_checker.py:98-106 | a directory holding `good.xml` then `bad.xml` hands both joined paths to the validator, in that order |
| ScannerScenarios.GoodThenBadOutput | tests/test_xml_checker.py:98-106 | with one good and one malformed path, `bad_files` holds the malformed path alone, and the output is its diagnostic, the heading, then its path |
| ScannerScenarios.GoodThenBadStdout | tests/test_xml_checker.py:104-106 | in that case the text on standard output contains the malformed file's path and the words "not well-formed" |

## Left out

- `ET.parse` and the XML grammar: a foreign library. It is the input `parse`; the model has no well-formedness checker of its own.
- The text of the parser's exception messages (`{e}`): library-defined. It is the opaque `message` of a `ParseOutcome`.
- `os.walk` and all file-system access (unreadable directories, symlink cycles, the order in which the OS lists names): the walk is the input sequence of `WalkEntry` values. The directory names that `os.walk` yields are not modelled, because the scan does not use them.
- Exceptions that do not derive from `Exception` (for example `KeyboardInterrupt`) escape `check_xml_format`; the model has no such outcome.
- Failures of `print` itself are not modelled: `Stdout` assumes every `print` succeeds. In the source, an exception raised by the `print` inside an `except` handler (xml_checker.py:18, :21), or by the summary's `print` calls (xml_checker.py:39-43), escapes `check_xml_format` and `check_files_in_directory`. Examples are a `BrokenPipeError` when standard output is a closed pipe, and a `UnicodeEncodeError` for a path the output encoding cannot encode (such as a POSIX file name that Python decodes to lone surrogates, which a Dafny `string` cannot hold).
- Scanner.Join: models `posixpath.join` for two components; the Windows rules of `ntpath.join` (drive letters, `\` separators) are not modelled.
- Strings.Lower: ASCII lower-casing only, not full Unicode `str.lower`. Under Unicode's case mappings no non-ASCII character lowers to `.`, `x`, `m` or `l`, so the extension test agrees with Python's on every name.
- Scanner.CheckFilesInDirectory: the Python function returns `None`. The model also returns `bad_files`, so that the contract can state it, and a ghost record of the paths handed to the validator.
- `select_directory` (xml_checker.py:45-55): the tkinter folder dialog, which is UI.
- `main` (xml_checker.py:58-79): argparse, the `os.path.isdir` pre-check, the stderr message, `sys.exit(1)` and the "No directory was selected." line. This is command-line plumbing that runs before the scan.
- The code keeps no count of checked files and no record of files that passed; it keeps only the bad paths and prints the diagnostics while checking. Its selection is a suffix test on the lower-cased name, so a file named just `.xml` is selected.
