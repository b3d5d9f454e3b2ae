/** Output file names.  The later script derives every artifact from the `-o` path by replacing
    its extension (`os.path.splitext(output)[0] + ext`); the earlier one writes the CSV to the path
    itself and derives only the image and the text summary. */
module Artifacts {

  /** The last position of `c` in `s`, or -1 (`str.rfind`). */
  function LastIndex(s: string, c: char): (r: int)
    ensures -1 <= r < |s|
    ensures r >= 0 ==> s[r] == c
    ensures forall k :: r < k < |s| ==> s[k] != c
  {
    if s == [] then -1
    else if s[|s| - 1] == c then |s| - 1
    else LastIndex(s[..|s| - 1], c)
  }

  /** `posixpath.splitext`: the extension starts at the last '.' of the last path component,
      unless everything before that dot in the component is dots too (".bashrc", "..."). */
  function SplitExt(p: string): (r: (string, string))
    ensures r.0 + r.1 == p
  {
    var sep := LastIndex(p, '/');
    var dot := LastIndex(p, '.');
    if dot > sep && exists k :: sep + 1 <= k < dot && p[k] != '.' then (p[..dot], p[dot..])
    else (p, "")
  }

  /** `splitext(p)[0]`. */
  function Stem(p: string): string
  {
    SplitExt(p).0
  }

  /** An extension is empty, or is one '.' followed by neither '.' nor '/'. */
  lemma ExtensionShape(p: string)
    ensures var ext := SplitExt(p).1;
      ext == [] || (ext[0] == '.' && forall k :: 1 <= k < |ext| ==> ext[k] != '.' && ext[k] != '/')
  {
    var sep := LastIndex(p, '/');
    var dot := LastIndex(p, '.');
    if dot > sep && exists k :: sep + 1 <= k < dot && p[k] != '.' {
      var ext := p[dot..];
      forall k | 1 <= k < |ext| ensures ext[k] != '.' && ext[k] != '/' {
        assert ext[k] == p[dot + k];
      }
    }
  }

  /** The part of `p` after its last '/'. */
  function BaseName(p: string): string
  {
    p[LastIndex(p, '/') + 1..]
  }

  /** A name with something other than dots in it. */
  predicate HasNonDot(s: string)
  {
    exists k :: 0 <= k < |s| && s[k] != '.'
  }

  /** Splitting `stem + ext` for an extension `ext` of the shape above gives back `stem` and
      `ext`, as long as the stem's last component is not all dots. */
  lemma SplitAfterAppend(stem: string, ext: string)
    requires |ext| >= 1 && ext[0] == '.' && forall k :: 1 <= k < |ext| ==> ext[k] != '.' && ext[k] != '/'
    requires HasNonDot(BaseName(stem))
    ensures SplitExt(stem + ext) == (stem, ext)
  {
    var p := stem + ext;
    var s0 := LastIndex(stem, '/');
    AppendedExtension(stem, ext);
    var b :| 0 <= b < |BaseName(stem)| && BaseName(stem)[b] != '.';
    var w := s0 + 1 + b;
    assert p[w] == stem[w] == BaseName(stem)[b];
    SplitAt(p, s0, |stem|, w);
    assert p[..|stem|] == stem && p[|stem|..] == ext;
  }

  /** Appending an extension adds no '/' and puts the last '.' at its start. */
  lemma AppendedExtension(stem: string, ext: string)
    requires |ext| >= 1 && ext[0] == '.' && forall k :: 1 <= k < |ext| ==> ext[k] != '.' && ext[k] != '/'
    ensures LastIndex(stem + ext, '/') == LastIndex(stem, '/')
    ensures LastIndex(stem + ext, '.') == |stem|
  {
    var p := stem + ext;
    assert forall k :: 0 <= k < |ext| ==> ext[k] != '/';
    LastIndexOfPrefix(stem, ext, '/');
    forall k | |stem| < k < |p|
      ensures p[k] != '.'
    {
      assert p[k] == ext[k - |stem|];
    }
    LastIndexIs(p, '.', |stem|);
  }

  /** The split happens at the last dot when a non-dot precedes it in the last component. */
  lemma SplitAt(p: string, sep: int, dot: int, w: int)
    requires LastIndex(p, '/') == sep && LastIndex(p, '.') == dot
    requires sep + 1 <= w < dot && p[w] != '.'
    ensures SplitExt(p) == (p[..dot], p[dot..])
  {
  }

  /** The last occurrence is the one with no occurrence after it. */
  lemma LastIndexIs(s: string, c: char, i: int)
    requires 0 <= i < |s| && s[i] == c && forall k :: i < k < |s| ==> s[k] != c
    ensures LastIndex(s, c) == i
  {
  }

  lemma {:induction false} LastIndexOfPrefix(s: string, t: string, c: char)
    requires forall k :: 0 <= k < |t| ==> t[k] != c
    ensures LastIndex(s + t, c) == LastIndex(s, c)
  {
    if t == [] {
      assert s + t == s;
    } else {
      var u := t[..|t| - 1];
      assert (s + t)[..|s + t| - 1] == s + u;
      LastIndexOfPrefix(s, u, c);
    }
  }

  datatype Artifacts = Artifacts(csv: string, txt: string, xlsx: string, png: string)

  /** The later script's four artifacts: merged CSV, text summary, workbook and plot. */
  function ReportArtifacts(output: string): Artifacts
  {
    var stem := Stem(output);
    Artifacts(stem + ".csv", stem + ".txt", stem + ".xlsx", stem + ".png")
  }

  /** The earlier script's artifacts: the CSV at the output path itself, no workbook. */
  datatype EarlyArtifacts = EarlyArtifacts(csv: string, txt: string, png: string)

  function EarlyReportArtifacts(output: string): EarlyArtifacts
  {
    var stem := Stem(output);
    EarlyArtifacts(output, stem + ".txt", stem + ".png")
  }

  /** The four artifacts share the output's stem and differ only in their extensions: splitting
      each of them gives back that stem (when the output's last component is not all dots) and
      its own extension, and they are pairwise different. */
  lemma ReportArtifactsShareStem(output: string)
    requires HasNonDot(BaseName(Stem(output)))
    ensures var a := ReportArtifacts(output);
      SplitExt(a.csv) == (Stem(output), ".csv") && SplitExt(a.txt) == (Stem(output), ".txt") &&
      SplitExt(a.xlsx) == (Stem(output), ".xlsx") && SplitExt(a.png) == (Stem(output), ".png")
    ensures var a := ReportArtifacts(output);
      a.csv != a.txt && a.csv != a.xlsx && a.csv != a.png && a.txt != a.xlsx && a.txt != a.png && a.xlsx != a.png
  {
    var stem := Stem(output);
    SplitAfterAppend(stem, ".csv");
    SplitAfterAppend(stem, ".txt");
    SplitAfterAppend(stem, ".xlsx");
    SplitAfterAppend(stem, ".png");
    var a := ReportArtifacts(output);
    assert a.csv[|stem| + 1] == 'c' && a.txt[|stem| + 1] == 't' && a.xlsx[|stem| + 1] == 'x' && a.png[|stem| + 1] == 'p';
  }

  /** The earlier script's image and summary share the output's stem; its CSV is that stem
      followed by the output's own extension. */
  lemma EarlyArtifactsShareStem(output: string)
    requires HasNonDot(BaseName(Stem(output)))
    ensures var a := EarlyReportArtifacts(output);
      a.csv == Stem(output) + SplitExt(output).1 && SplitExt(a.txt) == (Stem(output), ".txt") && SplitExt(a.png) == (Stem(output), ".png")
  {
    var stem := Stem(output);
    SplitAfterAppend(stem, ".txt");
    SplitAfterAppend(stem, ".png");
  }

  /** With a `.png` output path the earlier script writes its CSV to the very file it later
      saves the plot to; with a `.csv` path both scripts write the CSV to the same file. */
  lemma OutputExtensionInteractions(stem: string)
    requires HasNonDot(BaseName(stem))
    ensures EarlyReportArtifacts(stem + ".png").csv == EarlyReportArtifacts(stem + ".png").png
    ensures ReportArtifacts(stem + ".csv").csv == EarlyReportArtifacts(stem + ".csv").csv == stem + ".csv"
  {
    SplitAfterAppend(stem, ".png");
    SplitAfterAppend(stem, ".csv");
  }

  lemma SplitExtExamples()
    ensures SplitExt("out/report.csv") == ("out/report", ".csv")
    ensures SplitExt("report") == ("report", "")
  {
    var stem := "out/report";
    assert stem[3] == '/' && forall k :: 3 < k < |stem| ==> stem[k] != '/';
    LastIndexIs(stem, '/', 3);
    assert BaseName(stem) == "report";
    assert BaseName(stem)[0] != '.';
    SplitAfterAppend(stem, ".csv");
    assert stem + ".csv" == "out/report.csv";
    assert forall k :: 0 <= k < |"report"| ==> "report"[k] != '.';
  }

  /** A leading dot does not start an extension, and neither does a dot in a directory name. */
  lemma SplitExtDotExamples()
    ensures SplitExt(".bashrc") == (".bashrc", "")
    ensures SplitExt("a.b/c") == ("a.b/c", "")
  {
    assert ".bashrc"[0] == '.' && forall k :: 0 < k < 7 ==> ".bashrc"[k] != '.';
    LastIndexIs(".bashrc", '.', 0);
    assert "a.b/c"[1] == '.' && forall k :: 1 < k < 5 ==> "a.b/c"[k] != '.';
    LastIndexIs("a.b/c", '.', 1);
    assert "a.b/c"[3] == '/' && "a.b/c"[4] != '/';
    LastIndexIs("a.b/c", '/', 3);
  }
}
