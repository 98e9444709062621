/** The directory scan `check_files_in_directory`: walk a tree, select the
    file names whose lower-cased form ends in ".xml", validate each one,
    collect the failing paths in visiting order, then print a summary.
    The walk (`os.walk`) and the parser are inputs of the model. */
module Scanner {
  import opened Strings
  import opened Validator

  /** One triple `(root, dirs, files)` produced by `os.walk`; the directory
      names are not used by the scan and are left out. */
  datatype WalkEntry = WalkEntry(root: Path, files: seq<string>)

  const XmlSuffix := ".xml"
  const AllWellFormed := "All XML files are well-formed."
  const BadHeading := "\nThe following files are not well-formed:"

  // ---------------------------------------------------------------------
  // Candidate selection

  /** `file_name.lower().endswith('.xml')` */
  predicate IsCandidate(name: string)
  {
    EndsWith(Lower(name), XmlSuffix)
  }

  /** Independent description of a candidate, letter by letter: the name ends
      in a dot followed by x, m and l, each in either case. */
  ghost predicate SpelledXml(s: string)
  {
    && |s| >= 4
    && s[|s| - 4] == '.'
    && s[|s| - 3] in "xX"
    && s[|s| - 2] in "mM"
    && s[|s| - 1] in "lL"
  }

  lemma IsCandidateSpelled(name: string)
    ensures IsCandidate(name) <==> SpelledXml(name)
  {
    var low := Lower(name);
    var n := |name|;
    LowerAt(name);
    if n >= 4 {
      LowerCharIs(name[n - 3], 'x', 'X');
      LowerCharIs(name[n - 2], 'm', 'M');
      LowerCharIs(name[n - 1], 'l', 'L');
      if SpelledXml(name) {
        assert low[n - 4..] == XmlSuffix;
      }
      if IsCandidate(name) {
        assert low[n - 4] == XmlSuffix[0] && low[n - 3] == XmlSuffix[1];
        assert low[n - 2] == XmlSuffix[2] && low[n - 1] == XmlSuffix[3];
      }
    }
  }

  /** `os.path.join(root, name)` with POSIX rules for two components: an
      absolute `name` replaces `root`; otherwise a '/' is inserted unless
      `root` is empty or already ends in '/'. */
  function Join(root: Path, name: string): (p: Path)
    ensures EndsWith(p, name)
    ensures !StartsWith(name, "/") ==> StartsWith(p, root)
  {
    if StartsWith(name, "/") then name
    else if root == [] || EndsWith(root, "/") then root + name
    else root + "/" + name
  }

  /** Joining a directory in front of a name never changes whether it is a
      candidate: the separator '/' can never stand in for ".xml". */
  lemma JoinKeepsCandidacy(root: Path, name: string)
    ensures IsCandidate(Join(root, name)) <==> IsCandidate(name)
  {
    var p := Join(root, name);
    IsCandidateSpelled(p);
    IsCandidateSpelled(name);
    var k := |p| - |name|;
    assert p[k..] == name;
    if |name| < 4 && !StartsWith(name, "/") && k > 0 {
      // the character just before `name` is a '/', and it lies among the
      // last four characters of `p`
      assert p[k - 1] == '/';
    }
    if |name| >= 4 {
      assert p[|p| - 4] == name[|name| - 4] && p[|p| - 3] == name[|name| - 3];
      assert p[|p| - 2] == name[|name| - 2] && p[|p| - 1] == name[|name| - 1];
    }
  }

  // ---------------------------------------------------------------------
  // The specification of the scan

  /** The paths built, in order, from the candidate names of one directory. */
  function CandidatesIn(root: Path, names: seq<string>): seq<Path>
  {
    if names == [] then []
    else (if IsCandidate(names[0]) then [Join(root, names[0])] else [])
         + CandidatesIn(root, names[1..])
  }

  /** Every candidate path of the walk, in visiting order: the order in which
      the scan hands paths to the validator. */
  function Candidates(walk: seq<WalkEntry>): seq<Path>
  {
    if walk == [] then []
    else CandidatesIn(walk[0].root, walk[0].files) + Candidates(walk[1..])
  }

  /** The paths whose check fails, in the order of `paths`. */
  function Failing(paths: seq<Path>, parse: Path -> ParseOutcome): seq<Path>
  {
    if paths == [] then []
    else (if CheckXmlFormat(paths[0], parse(paths[0])).wellFormed then [] else [paths[0]])
         + Failing(paths[1..], parse)
  }

  /** The lines the validator prints while checking `paths`, in order. */
  function Diagnostics(paths: seq<Path>, parse: Path -> ParseOutcome): seq<string>
  {
    if paths == [] then []
    else CheckXmlFormat(paths[0], parse(paths[0])).printed + Diagnostics(paths[1..], parse)
  }

  /** The summary printed once the walk is over, as one string per `print`. */
  function Report(badFiles: seq<Path>): seq<string>
  {
    if badFiles == [] then [AllWellFormed] else [BadHeading] + badFiles
  }

  /** What a reader of the summary takes to be the list of bad files, one
      entry per `print` argument after the heading. */
  function ReadReport(lines: seq<string>): seq<Path>
  {
    if |lines| > 0 && lines[0] == BadHeading then lines[1..] else []
  }

  /** The text on standard output: each `print` adds its argument and a newline. */
  function Stdout(printed: seq<string>): string
  {
    if printed == [] then [] else printed[0] + "\n" + Stdout(printed[1..])
  }

  /** `s` occurs in `text` as a contiguous substring (Python's `s in text`). */
  ghost predicate Occurs(s: string, text: string)
  {
    exists i :: 0 <= i <= |text| && StartsWith(text[i..], s)
  }

  /** A substring of a substring of `text` is a substring of `text`. */
  lemma OccursTransitive(s: string, mid: string, text: string)
    requires Occurs(s, mid) && Occurs(mid, text)
    ensures Occurs(s, text)
  {
    var i :| 0 <= i <= |mid| && StartsWith(mid[i..], s);
    var j :| 0 <= j <= |text| && StartsWith(text[j..], mid);
    assert text[j..][..|mid|] == mid;
    assert forall k :: 0 <= k < |s| ==> text[j + i + k] == mid[i + k] == s[k];
    assert text[j + i..][..|s|] == s;
  }

  /** `a` is `b` with some elements left out, the rest kept in order. */
  ghost predicate IsSubsequence(a: seq<Path>, b: seq<Path>)
    decreases |b|
  {
    if a == [] then true
    else if b == [] then false
    else (a[0] == b[0] && IsSubsequence(a[1..], b[1..])) || IsSubsequence(a, b[1..])
  }

  // ---------------------------------------------------------------------
  // Lemmas about the specification

  lemma {:induction false} CandidatesInAppend(root: Path, a: seq<string>, b: seq<string>)
    ensures CandidatesIn(root, a + b) == CandidatesIn(root, a) + CandidatesIn(root, b)
  {
    if a != [] {
      assert (a + b)[1..] == a[1..] + b;
      CandidatesInAppend(root, a[1..], b);
    } else {
      assert a + b == b;
    }
  }

  lemma {:induction false} CandidatesAppend(a: seq<WalkEntry>, b: seq<WalkEntry>)
    ensures Candidates(a + b) == Candidates(a) + Candidates(b)
  {
    if a != [] {
      assert (a + b)[1..] == a[1..] + b;
      CandidatesAppend(a[1..], b);
    } else {
      assert a + b == b;
    }
  }

  lemma {:induction false} FailingAppend(a: seq<Path>, b: seq<Path>, parse: Path -> ParseOutcome)
    ensures Failing(a + b, parse) == Failing(a, parse) + Failing(b, parse)
  {
    if a != [] {
      var ab := a + b;
      assert ab[0] == a[0] && ab[1..] == a[1..] + b;
      FailingAppend(a[1..], b, parse);
    } else {
      assert a + b == b;
    }
  }

  lemma {:induction false} DiagnosticsAppend(a: seq<Path>, b: seq<Path>, parse: Path -> ParseOutcome)
    ensures Diagnostics(a + b, parse) == Diagnostics(a, parse) + Diagnostics(b, parse)
  {
    if a != [] {
      assert (a + b)[1..] == a[1..] + b;
      DiagnosticsAppend(a[1..], b, parse);
    } else {
      assert a + b == b;
    }
  }

  /** One more name of a directory adds its path exactly when it is a candidate. */
  lemma CandidatesInPrefixStep(root: Path, names: seq<string>, j: nat)
    requires j < |names|
    ensures CandidatesIn(root, names[..j + 1])
            == CandidatesIn(root, names[..j])
               + (if IsCandidate(names[j]) then [Join(root, names[j])] else [])
  {
    assert names[..j + 1] == names[..j] + [names[j]];
    assert [names[j]][1..] == [];
    CandidatesInAppend(root, names[..j], [names[j]]);
  }

  /** One more walk entry adds the candidate paths of its directory. */
  lemma CandidatesPrefixStep(walk: seq<WalkEntry>, i: nat)
    requires i < |walk|
    ensures Candidates(walk[..i + 1])
            == Candidates(walk[..i]) + CandidatesIn(walk[i].root, walk[i].files)
  {
    assert walk[..i + 1] == walk[..i] + [walk[i]];
    assert [walk[i]][1..] == [];
    CandidatesAppend(walk[..i], [walk[i]]);
  }

  /** Checking one more path adds it to the failing ones exactly when its check
      fails, and adds the lines that check prints. */
  lemma CheckedStep(paths: seq<Path>, p: Path, parse: Path -> ParseOutcome)
    ensures Failing(paths + [p], parse)
            == Failing(paths, parse) + (if CheckXmlFormat(p, parse(p)).wellFormed then [] else [p])
    ensures Diagnostics(paths + [p], parse)
            == Diagnostics(paths, parse) + CheckXmlFormat(p, parse(p)).printed
  {
    assert [p][1..] == [];
    FailingAppend(paths, [p], parse);
    DiagnosticsAppend(paths, [p], parse);
  }

  /** A path of a directory is selected exactly when it is the join of that
      directory with one of its names that passes the extension test. */
  lemma {:induction false} CandidatesInMembers(root: Path, names: seq<string>, p: Path)
    ensures p in CandidatesIn(root, names) <==>
            exists n :: n in names && IsCandidate(n) && p == Join(root, n)
  {
    if names != [] {
      CandidatesInMembers(root, names[1..], p);
      assert forall n :: n in names <==> n == names[0] || n in names[1..];
    }
  }

  /** A path is handed to the validator exactly when it is the join of some
      walked directory with one of its file names that passes the extension
      test. */
  lemma {:induction false} CandidatesMembers(walk: seq<WalkEntry>, p: Path)
    ensures p in Candidates(walk) <==>
            exists i, n :: 0 <= i < |walk| && n in walk[i].files && IsCandidate(n)
                           && p == Join(walk[i].root, n)
  {
    if walk != [] {
      CandidatesInMembers(walk[0].root, walk[0].files, p);
      CandidatesMembers(walk[1..], p);
      if p in Candidates(walk[1..]) {
        var i, n :| 0 <= i < |walk[1..]| && n in walk[1..][i].files && IsCandidate(n)
                    && p == Join(walk[1..][i].root, n);
        assert walk[i + 1] == walk[1..][i];
      }
      if exists i, n :: 0 <= i < |walk| && n in walk[i].files && IsCandidate(n)
                        && p == Join(walk[i].root, n) {
        var i, n :| 0 <= i < |walk| && n in walk[i].files && IsCandidate(n)
                    && p == Join(walk[i].root, n);
        if i > 0 {
          assert walk[1..][i - 1] == walk[i];
        }
      }
    }
  }

  /** Every path handed to the validator itself ends in ".xml" in some case:
      a non-candidate name never reaches the validator under any directory. */
  lemma CandidatesAreXml(walk: seq<WalkEntry>, p: Path)
    requires p in Candidates(walk)
    ensures IsCandidate(p)
  {
    CandidatesMembers(walk, p);
    var i, n :| 0 <= i < |walk| && n in walk[i].files && IsCandidate(n)
                && p == Join(walk[i].root, n);
    JoinKeepsCandidacy(walk[i].root, n);
  }

  /** The failing paths are exactly the checked paths whose parse fails. */
  lemma {:induction false} FailingMembers(paths: seq<Path>, parse: Path -> ParseOutcome, p: Path)
    ensures p in Failing(paths, parse) <==> p in paths && !parse(p).Parsed?
  {
    if paths != [] {
      FailingMembers(paths[1..], parse, p);
    }
  }

  /** The failing paths keep the checking order: nothing is re-sorted. */
  lemma {:induction false} FailingIsSubsequence(paths: seq<Path>, parse: Path -> ParseOutcome)
    ensures IsSubsequence(Failing(paths, parse), paths)
  {
    if paths != [] {
      FailingIsSubsequence(paths[1..], parse);
      var rest := Failing(paths[1..], parse);
      if !parse(paths[0]).Parsed? {
        assert Failing(paths, parse) == [paths[0]] + rest;
        assert ([paths[0]] + rest)[1..] == rest;
      } else {
        assert Failing(paths, parse) == rest;
      }
    }
  }

  /** Each path occurs in the failing ones as often as it was checked if its
      parse fails, and never otherwise: nothing is deduplicated or dropped. */
  lemma {:induction false} FailingCount(paths: seq<Path>, parse: Path -> ParseOutcome, p: Path)
    ensures multiset(Failing(paths, parse))[p]
            == if parse(p).Parsed? then 0 else multiset(paths)[p]
  {
    if paths != [] {
      FailingCount(paths[1..], parse, p);
      assert paths == [paths[0]] + paths[1..];
    }
  }

  /** When every check fails, every path is reported, repeats included:
      nothing is deduplicated. */
  lemma {:induction false} FailingKeepsAll(paths: seq<Path>, parse: Path -> ParseOutcome)
    requires forall i :: 0 <= i < |paths| ==> !parse(paths[i]).Parsed?
    ensures Failing(paths, parse) == paths
  {
    if paths != [] {
      FailingKeepsAll(paths[1..], parse);
    }
  }

  /** When every check succeeds, nothing is reported (this covers a walk with
      no candidate at all). */
  lemma {:induction false} FailingNone(paths: seq<Path>, parse: Path -> ParseOutcome)
    requires forall i :: 0 <= i < |paths| ==> parse(paths[i]).Parsed?
    ensures Failing(paths, parse) == []
  {
    if paths != [] {
      FailingNone(paths[1..], parse);
    }
  }

  /** The diagnostics printed during the walk match the final list one to one:
      the i-th diagnostic line names the i-th bad file. */
  lemma {:induction false} DiagnosticsMatchFailing(paths: seq<Path>, parse: Path -> ParseOutcome)
    ensures |Diagnostics(paths, parse)| == |Failing(paths, parse)|
    ensures forall i :: 0 <= i < |Failing(paths, parse)| ==>
              StartsWith(Diagnostics(paths, parse)[i], Failing(paths, parse)[i])
  {
    if paths != [] {
      DiagnosticsMatchFailing(paths[1..], parse);
      var p := paths[0];
      if !parse(p).Parsed? {
        DiagnosticNamesFile(p, parse(p));
        var d, f := Diagnostics(paths, parse), Failing(paths, parse);
        assert d == [CheckXmlFormat(p, parse(p)).printed[0]] + Diagnostics(paths[1..], parse);
        assert f == [p] + Failing(paths[1..], parse);
        forall i | 0 <= i < |f|
          ensures StartsWith(d[i], f[i])
        {
          if i > 0 {
            assert d[i] == Diagnostics(paths[1..], parse)[i - 1];
            assert f[i] == Failing(paths[1..], parse)[i - 1];
          }
        }
      }
    }
  }

  /** `bad_files` only grows by appending: the list after visiting part of the
      walk is a prefix of the list after visiting more of it. */
  lemma BadFilesGrowByAppend(walk: seq<WalkEntry>, i: nat, j: nat, parse: Path -> ParseOutcome)
    requires i <= j <= |walk|
    ensures Failing(Candidates(walk[..i]), parse) <= Failing(Candidates(walk[..j]), parse)
  {
    assert walk[..j] == walk[..i] + walk[i..j];
    CandidatesAppend(walk[..i], walk[i..j]);
    FailingAppend(Candidates(walk[..i]), Candidates(walk[i..j]), parse);
  }

  /** The summary is the success line alone exactly when there is no bad file. */
  lemma ReportSuccessIff(badFiles: seq<Path>)
    ensures Report(badFiles) == [AllWellFormed] <==> badFiles == []
  {
  }

  /** The list of bad paths can be read back from the summary, in its order. */
  lemma ReportRoundTrip(badFiles: seq<Path>)
    ensures ReadReport(Report(badFiles)) == badFiles
  {
  }

  /** The scan prints nothing but the success line exactly when every checked
      file parses, which includes the walk with no candidate at all. */
  lemma SuccessLineIffAllParse(paths: seq<Path>, parse: Path -> ParseOutcome)
    ensures Diagnostics(paths, parse) + Report(Failing(paths, parse)) == [AllWellFormed]
            <==> forall i :: 0 <= i < |paths| ==> parse(paths[i]).Parsed?
  {
    DiagnosticsMatchFailing(paths, parse);
    if forall i :: 0 <= i < |paths| ==> parse(paths[i]).Parsed? {
      FailingNone(paths, parse);
    } else {
      var i :| 0 <= i < |paths| && !parse(paths[i]).Parsed?;
      FailingMembers(paths, parse, paths[i]);
      assert |Report(Failing(paths, parse))| >= 2;
    }
  }

  /** Every printed string can be found in the text on standard output. */
  lemma {:induction false} PrintedOccursInStdout(printed: seq<string>, k: nat)
    requires k < |printed|
    ensures Occurs(printed[k], Stdout(printed))
  {
    var text := Stdout(printed);
    var rest := Stdout(printed[1..]);
    assert text == printed[0] + "\n" + rest;
    if k == 0 {
      assert text[0..][..|printed[0]|] == printed[0];
    } else {
      PrintedOccursInStdout(printed[1..], k - 1);
      var s := printed[k];
      assert s == printed[1..][k - 1];
      var i :| 0 <= i <= |rest| && StartsWith(rest[i..], s);
      var off := |printed[0]| + 1;
      assert text[off + i..] == rest[i..];
    }
  }

  // ---------------------------------------------------------------------
  // The scan itself

  /** The inner loop of the scan, over the file names of one walked
      directory: select, join, validate, collect. */
  method CheckNames(root: Path, files: seq<string>, parse: Path -> ParseOutcome)
    returns (badFiles: seq<Path>, printed: seq<string>, ghost validated: seq<Path>)
    ensures validated == CandidatesIn(root, files)
    ensures badFiles == Failing(CandidatesIn(root, files), parse)
    ensures printed == Diagnostics(CandidatesIn(root, files), parse)
  {
    badFiles, printed, validated := [], [], [];
    for j := 0 to |files|
      invariant validated == CandidatesIn(root, files[..j])
      invariant badFiles == Failing(validated, parse)
      invariant printed == Diagnostics(validated, parse)
    {
      var fileName := files[j];
      CandidatesInPrefixStep(root, files, j);
      if IsCandidate(fileName) {
        var filePath := Join(root, fileName);
        var result := CheckXmlFormat(filePath, parse(filePath));
        CheckedStep(validated, filePath, parse);
        validated := validated + [filePath];
        printed := printed + result.printed;
        if !result.wellFormed {
          badFiles := badFiles + [filePath];
        }
      }
    }
    assert validated == CandidatesIn(root, files) by {
      assert files[..|files|] == files;
    }
  }

  /** The summary printed after the walk: the success line, or the heading
      followed by one `print` per bad path. */
  method PrintSummary(badFiles: seq<Path>) returns (printed: seq<string>)
    ensures printed == Report(badFiles)
  {
    if |badFiles| > 0 {
      printed := [BadHeading];
      for k := 0 to |badFiles|
        invariant printed == [BadHeading] + badFiles[..k]
      {
        printed := printed + [badFiles[k]];
      }
      assert badFiles[..|badFiles|] == badFiles;
    } else {
      printed := [AllWellFormed];
    }
  }

  /** The outer loop of the scan, over the entries of the walk in the order
      `os.walk` yields them. */
  method CheckWalk(walk: seq<WalkEntry>, parse: Path -> ParseOutcome)
    returns (badFiles: seq<Path>, printed: seq<string>, ghost validated: seq<Path>)
    ensures validated == Candidates(walk)
    ensures badFiles == Failing(Candidates(walk), parse)
    ensures printed == Diagnostics(Candidates(walk), parse)
  {
    badFiles, printed, validated := [], [], [];
    for i := 0 to |walk|
      invariant validated == Candidates(walk[..i])
      invariant badFiles == Failing(validated, parse)
      invariant printed == Diagnostics(validated, parse)
    {
      var bad, lines, seen := CheckNames(walk[i].root, walk[i].files, parse);
      CandidatesPrefixStep(walk, i);
      assert Failing(validated + seen, parse) == badFiles + bad by {
        FailingAppend(validated, seen, parse);
      }
      assert Diagnostics(validated + seen, parse) == printed + lines by {
        DiagnosticsAppend(validated, seen, parse);
      }
      validated := validated + seen;
      badFiles := badFiles + bad;
      printed := printed + lines;
    }
    assert validated == Candidates(walk) by {
      assert walk[..|walk|] == walk;
    }
  }

  /** `check_files_in_directory` over the walk `walk`, with `parse` giving the
      outcome of `ET.parse` on each path. Returns the list `bad_files` and the
      strings passed to `print`, in order; `validated` records every path
      handed to the validator. */
  method CheckFilesInDirectory(walk: seq<WalkEntry>, parse: Path -> ParseOutcome)
    returns (badFiles: seq<Path>, printed: seq<string>, ghost validated: seq<Path>)
    ensures validated == Candidates(walk)
    ensures badFiles == Failing(Candidates(walk), parse)
    ensures printed == Diagnostics(Candidates(walk), parse) + Report(badFiles)
  {
    var diagnostics;
    badFiles, diagnostics, validated := CheckWalk(walk, parse);
    var summary := PrintSummary(badFiles);
    printed := diagnostics + summary;
  }
}
