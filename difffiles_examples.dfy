/**
  The example in the documentation of `get_files` in svndiff/diffparser.py:
  a diff of two files, read back as two "mod" files in input order, and how
  each of them prints.
 */
module DiffFilesExamples {
  import opened PyText
  import opened DiffFiles

  const ExampleLines: seq<string> := ExampleFirst + ExampleFirstBody + ExampleSecond + ExampleSecondBody

  /** The base url of the example, after its trailing slash is dropped, and the two paths. */
  const ExampleBase: string := "http://svn"
  const ExampleFirstPath: string := "srm-pom/pom.xml"
  const ExampleSecondPath: string := "psfo-messagekit/pom.xml"

  const ExampleFirstFile: File := File(Modified, ExampleFirstPath, ExampleBase + "/" + ExampleFirstPath, [])
  const ExampleSecondFile: File := File(Modified, ExampleSecondPath, ExampleBase + "/" + ExampleSecondPath, [])

  /** The text the example hands to `get_files`: its lines joined by "\n", with no final line break. */
  const ExampleText: string := Join("\n", ExampleLines)

  /** The example in the documentation of `get_files`: two files, both "mod", in input order. */
  lemma GetFilesExample()
    ensures FilesOf(SplitLines(ExampleText), StripSlash("http://svn/")) == [ExampleFirstFile, ExampleSecondFile]
  {
    ExampleLinesSplit();
    var base := StripSlash("http://svn/");
    assert base == ExampleBase;
    var files := ExampleFiles(base);
    ExampleFirstBuilt();
    ExampleSecondBuilt();
  }

  /** `splitlines` gives the example's lines back. */
  lemma ExampleLinesSplit()
    ensures SplitLines(ExampleText) == ExampleLines
  {
    IndexLinesBreakless();
    assert AllBreakless(ExampleFirst) && AllBreakless(ExampleSecond);
    BodiesBreakless();
    AllAppend(ExampleFirst, ExampleFirstBody);
    AllAppend(ExampleFirst + ExampleFirstBody, ExampleSecond);
    AllAppend(ExampleFirst + ExampleFirstBody + ExampleSecond, ExampleSecondBody);
    assert ExampleLines[|ExampleLines| - 1] == "     </parent>";
    SplitJoin(ExampleLines);
  }

  predicate AllBreakless(lines: seq<string>) {
    forall i :: 0 <= i < |lines| ==> NoLineBreak(lines[i])
  }

  lemma AllAppend(a: seq<string>, b: seq<string>)
    requires AllBreakless(a) && AllBreakless(b)
    ensures AllBreakless(a + b)
  {
    assert forall i :: |a| <= i < |a + b| ==> (a + b)[i] == b[i - |a|];
  }

  lemma IndexLinesBreakless()
    ensures NoLineBreak(INDEX + ExampleFirstPath) && NoLineBreak(INDEX + ExampleSecondPath)
  {
    NoBreakAppend("Index: ", "srm-pom/pom.xml");
    NoBreakAppend("Index: ", "psfo-messagekit/pom.xml");
  }

  lemma BodiesBreakless()
    ensures AllBreakless(ExampleFirstBody) && AllBreakless(ExampleSecondBody)
  {
    forall j | 0 <= j < |ExampleFirstBody| ensures NoLineBreak(ExampleFirstBody[j]) {
      FirstBodyBreakless(j);
    }
    forall j | 0 <= j < |ExampleSecondBody| ensures NoLineBreak(ExampleSecondBody[j]) {
      SecondBodyBreakless(j);
    }
  }

  // Each line's characters are checked in a lemma of its own, the longer
  // lines piece by piece, to keep the character-by-character reasoning small.

  lemma FirstBodyBreakless(j: nat)
    requires j < |ExampleFirstBody|
    ensures NoLineBreak(ExampleFirstBody[j])
  {
    if j == 1 { FirstOldBreakless(); }
    else if j == 2 { FirstNewBreakless(); }
    else if j == 3 || j == 5 || j == 9 || j == 11 { FirstShortBreakless(); }
    else if j == 6 { FirstContextBreakless(); }
    else if j == 7 { FirstRemovedBreakless(); }
    else if j == 8 { FirstAddedBreakless(); }
  }

  lemma SecondBodyBreakless(j: nat)
    requires j < |ExampleSecondBody|
    ensures NoLineBreak(ExampleSecondBody[j])
  {
    if j == 1 { SecondOldBreakless(); }
    else if j == 2 { SecondNewBreakless(); }
    else if j == 3 || j == 4 || j == 9 { SecondShortBreakless(); }
    else if j == 5 { SecondGroupBreakless(); }
    else if j == 6 { SecondArtifactBreakless(); }
    else if j == 7 { SecondRemovedBreakless(); }
    else if j == 8 { SecondAddedBreakless(); }
  }

  lemma FirstOldBreakless() ensures NoLineBreak("--- " + "srm-pom/pom.xml" + " (revision 3417)") {
    Breakless3("--- ", "srm-pom/pom.xml", " (revision 3417)");
  }
  lemma FirstNewBreakless() ensures NoLineBreak("+++ " + "srm-pom/pom.xml" + " (revision 3418)") {
    Breakless3("+++ ", "srm-pom/pom.xml", " (revision 3418)");
  }
  lemma FirstShortBreakless()
    ensures NoLineBreak("@@ -24,7 +24,7 @@") && NoLineBreak("<properties>")
    ensures NoLineBreak("</properties>") && NoLineBreak("<dependencies>")
  {
  }
  lemma FirstContextBreakless() ensures NoLineBreak("    " + "<scmModule>srm" + "</scmModule>") {
    Breakless3("    ", "<scmModule>srm", "</scmModule>");
  }
  lemma FirstRemovedBreakless()
    ensures NoLineBreak("-   " + "<infrastructure-release>" + "1.113" + "</infrastructure-release>")
  {
    Breakless4("-   ", "<infrastructure-release>", "1.113", "</infrastructure-release>");
  }
  lemma FirstAddedBreakless()
    ensures NoLineBreak("+   " + "<infrastructure-release>" + "1.115" + "</infrastructure-release>")
  {
    Breakless4("+   ", "<infrastructure-release>", "1.115", "</infrastructure-release>");
  }

  lemma SecondOldBreakless() ensures NoLineBreak("--- " + "psfo-messagekit/pom.xml" + " (revision 3416)") {
    Breakless3("--- ", "psfo-messagekit/pom.xml", " (revision 3416)");
  }
  lemma SecondNewBreakless() ensures NoLineBreak("+++ " + "psfo-messagekit/pom.xml" + " (revision 3417)") {
    Breakless3("+++ ", "psfo-messagekit/pom.xml", " (revision 3417)");
  }
  lemma SecondShortBreakless()
    ensures NoLineBreak("@@ -5,7 +5,7 @@") && NoLineBreak("     <parent>") && NoLineBreak("     </parent>")
  {
  }
  lemma SecondGroupBreakless() ensures NoLineBreak("         " + "<groupId>" + "com.lehman.psfo" + "</groupId>") {
    Breakless4("         ", "<groupId>", "com.lehman.psfo", "</groupId>");
  }
  lemma SecondArtifactBreakless()
    ensures NoLineBreak("         " + "<artifactId>" + "infrastructure-pom" + "</artifactId>")
  {
    Breakless4("         ", "<artifactId>", "infrastructure-pom", "</artifactId>");
  }
  lemma SecondRemovedBreakless() ensures NoLineBreak("-        " + "<version>1.115" + "</version>") {
    Breakless3("-        ", "<version>1.115", "</version>");
  }
  lemma SecondAddedBreakless() ensures NoLineBreak("+        " + "<version>" + "1.116-SNAPSHOT" + "</version>") {
    Breakless4("+        ", "<version>", "1.116-SNAPSHOT", "</version>");
  }

  lemma Breakless3(a: string, b: string, c: string)
    requires NoLineBreak(a) && NoLineBreak(b) && NoLineBreak(c)
    ensures NoLineBreak(a + b + c)
  {
    NoBreakAppend(a, b);
    NoBreakAppend(a + b, c);
  }

  lemma Breakless4(a: string, b: string, c: string, d: string)
    requires NoLineBreak(a) && NoLineBreak(b) && NoLineBreak(c) && NoLineBreak(d)
    ensures NoLineBreak(a + b + c + d)
  {
    Breakless3(a, b, c);
    NoBreakAppend(a + b + c, d);
  }

  lemma ExampleFirstBuilt()
    ensures FileFor(ExampleFirst[0], ExampleBase) == ExampleFirstFile
  {
    FileForIndex(ExampleFirstPath, ExampleBase);
  }

  lemma ExampleSecondBuilt()
    ensures FileFor(ExampleSecond[0], ExampleBase) == ExampleSecondFile
  {
    FileForIndex(ExampleSecondPath, ExampleBase);
  }

  /** How the first file of the example prints. */
  lemma ExampleFirstRepr()
    ensures Repr(ExampleFirstFile) == "File srm-pom/pom.xml (mod)"
  {
    ReprOf(ExampleFirstFile, ExampleFirstPath);
  }

  /** How the second file of the example prints. */
  lemma ExampleSecondRepr()
    ensures Repr(ExampleSecondFile) == "File psfo-messagekit/pom.xml (mod)"
  {
    ReprOf(ExampleSecondFile, ExampleSecondPath);
    assert "File " + "psfo-messagekit/" + "pom.xml" + " (mod)" == "File psfo-messagekit/pom.xml (mod)";
  }

  /** The representation of a "mod" file: its path between "File " and " (mod)". */
  lemma ReprOf(f: File, path: string)
    requires f.kind == Modified && f.path == path
    ensures Repr(f) == "File " + path + " (mod)"
  {
    assert TagSuffix(Modified) == " (mod)";
  }

  lemma ExampleFiles(base: string) returns (files: seq<File>)
    ensures files == FilesOf(ExampleLines, base)
    ensures files == [FileFor(ExampleFirst[0], base), FileFor(ExampleSecond[0], base)]
  {
    ExampleBodiesHaveNoIndex(base);
    IndexLine(ExampleFirst[0], base);
    IndexLine(ExampleSecond[0], base);
    FilesOfAppend(ExampleFirst, ExampleFirstBody, base);
    FilesOfAppend(ExampleFirst + ExampleFirstBody, ExampleSecond, base);
    FilesOfAppend(ExampleFirst + ExampleFirstBody + ExampleSecond, ExampleSecondBody, base);
    files := FilesOf(ExampleLines, base);
  }

  lemma ExampleBodiesHaveNoIndex(base: string)
    ensures FilesOf(ExampleFirstBody, base) == [] && FilesOf(ExampleSecondBody, base) == []
  {
    forall j | 0 <= j < |ExampleFirstBody| ensures !StartsWith(ExampleFirstBody[j], INDEX) {
      var l := ExampleFirstBody[j];
      assert l == [] || l[0] != 'I' by {
        if j == 0 {} else if j == 1 {} else if j == 2 {} else if j == 3 {} else if j == 4 {} else if j == 5 {} else if j == 6 {} else if j == 7 {} else if j == 8 {} else if j == 9 {} else if j == 10 {}
      }
      NotIndexLine(l);
    }
    forall j | 0 <= j < |ExampleSecondBody| ensures !StartsWith(ExampleSecondBody[j], INDEX) {
      var l := ExampleSecondBody[j];
      assert l == [] || l[0] != 'I' by {
        if j == 0 {} else if j == 1 {} else if j == 2 {} else if j == 3 {} else if j == 4 {} else if j == 5 {} else if j == 6 {} else if j == 7 {} else if j == 8 {}
      }
      NotIndexLine(l);
    }
    NoIndexLines(ExampleFirstBody, base);
    NoIndexLines(ExampleSecondBody, base);
  }

  const ExampleFirst: seq<string> := [INDEX + ExampleFirstPath]
  const ExampleFirstBody: seq<string> :=
    [ Repeat('=', 67),
      "--- " + ExampleFirstPath + " (revision 3417)",
      "+++ " + ExampleFirstPath + " (revision 3418)",
      "@@ -24,7 +24,7 @@",
      "",
      "<properties>",
      "    " + "<scmModule>srm" + "</scmModule>",
      "-   " + "<infrastructure-release>" + "1.113" + "</infrastructure-release>",
      "+   " + "<infrastructure-release>" + "1.115" + "</infrastructure-release>",
      "</properties>",
      "",
      "<dependencies>" ]
  const ExampleSecond: seq<string> := [INDEX + ExampleSecondPath]
  const ExampleSecondBody: seq<string> :=
    [ Repeat('=', 67),
      "--- " + ExampleSecondPath + " (revision 3416)",
      "+++ " + ExampleSecondPath + " (revision 3417)",
      "@@ -5,7 +5,7 @@",
      "     <parent>",
      "         " + "<groupId>" + "com.lehman.psfo" + "</groupId>",
      "         " + "<artifactId>" + "infrastructure-pom" + "</artifactId>",
      "-        " + "<version>1.115" + "</version>",
      "+        " + "<version>" + "1.116-SNAPSHOT" + "</version>",
      "     </parent>" ]
}
