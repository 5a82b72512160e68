/**
 * The emission loop of the JavaScript bundler (js/gulp/bundle.js): the bundle is written line by line
 * while `lineOffset` is maintained by hand, and every copied source line gets a source-map entry.
 *
 * Regular expressions and `trim` are parameters.  The counter is related to the newlines really
 * written, so that each entry can be checked against the text of the finished bundle.
 */
module SourceMap {
  import opened Common

  // ---------------------------------------------------------------- text as lines

  function Newlines(s: string): nat {
    if s == "" then 0 else (if s[0] == '\n' then 1 else 0) + Newlines(s[1..])
  }

  /** The lines of a text with one more character in front. */
  function Cons(c: char, lines: seq<string>): seq<string>
    requires lines != []
  {
    if c == '\n' then [""] + lines else [[c] + lines[0]] + lines[1..]
  }

  /** `s.split("\n")`. */
  function Lines(s: string): (r: seq<string>)
    ensures |r| == Newlines(s) + 1
  {
    if s == "" then [""]
    else
      Cons(s[0], Lines(s[1..]))
  }

  function JoinLines(lines: seq<string>): string
    requires lines != []
  {
    if |lines| == 1 then lines[0] else lines[0] + "\n" + JoinLines(lines[1..])
  }

  lemma JoinCons(c: char, lines: seq<string>)
    requires lines != []
    ensures JoinLines(Cons(c, lines)) == [c] + JoinLines(lines)
  {
    if c == '\n' {
      assert Cons(c, lines)[1..] == lines;
    } else {
      assert Cons(c, lines)[1..] == lines[1..];
    }
  }

  /** Splitting loses nothing, and no line holds a newline. */
  lemma {:induction false} LinesRoundTrip(s: string)
    ensures JoinLines(Lines(s)) == s
    ensures forall k :: 0 <= k <= Newlines(s) ==> '\n' !in Lines(s)[k]
  {
    if s != "" {
      LinesRoundTrip(s[1..]);
      JoinCons(s[0], Lines(s[1..]));
      assert s == [s[0]] + s[1..];
    }
  }

  lemma {:induction false} NewlinesAppend(a: string, b: string)
    ensures Newlines(a + b) == Newlines(a) + Newlines(b)
  {
    if a == "" {
      assert a + b == b;
    } else {
      NewlinesAppend(a[1..], b);
      assert (a + b)[1..] == a[1..] + b;
    }
  }

  ghost predicate AtLineStart(s: string) {
    s == "" || s[|s| - 1] == '\n'
  }

  lemma EndsInNewline(s: string)
    requires s != "" && AtLineStart(s)
    ensures Newlines(s) > 0
  {
    NewlinesAppend(s[..|s| - 1], "\n");
    assert s == s[..|s| - 1] + "\n";
  }

  lemma ConsPrefix(c: char, a: seq<string>, b: seq<string>, n: nat)
    requires n <= |a| && b != [] && a != [] && (c == '\n' || 0 < n)
    ensures Cons(c, a[..n] + b) == Cons(c, a)[..if c == '\n' then n + 1 else n] + b
  {
    if c != '\n' {
      assert (a[..n] + b)[1..] == a[1..n] + b;
      assert Cons(c, a)[..n] == [[c] + a[0]] + a[1..n];
    }
  }

  /** Text written after a newline leaves all earlier lines as they are. */
  lemma {:induction false} LinesAppend(a: string, b: string)
    requires AtLineStart(a)
    ensures Lines(a + b) == Lines(a)[..Newlines(a)] + Lines(b)
  {
    if a == "" {
      assert a + b == b;
    } else {
      var t, c := a[1..], a[0];
      LinesAppend(t, b);
      assert (a + b)[1..] == t + b;
      if c != '\n' {
        EndsInNewline(t);
      }
      ConsPrefix(c, Lines(t), Lines(b), Newlines(t));
      calc {
        Lines(a + b);
        Cons(c, Lines(t + b));
        Cons(c, Lines(t)[..Newlines(t)] + Lines(b));
        Lines(a)[..Newlines(a)] + Lines(b);
      }
    }
  }

  lemma {:induction false} NoNewlines(s: string)
    requires '\n' !in s
    ensures Newlines(s) == 0 && Lines(s) == [s]
  {
    if s != "" {
      assert s[0] != '\n';
      NoNewlines(s[1..]);
      assert s == [s[0]] + s[1..];
    }
  }

  lemma OneLine(s: string)
    requires '\n' !in s
    ensures Newlines(s + "\n") == 1 && Lines(s + "\n") == [s, ""]
  {
    NoNewlines(s);
    NewlinesAppend(s, "\n");
    assert Lines("\n") == ["", ""];
    LinesSuffix(s, "\n");
    assert s + "" == s;
  }

  lemma {:induction false} LinesSuffix(s: string, b: string)
    requires '\n' !in s
    ensures Lines(s + b) == [s + Lines(b)[0]] + Lines(b)[1..]
  {
    if s == "" {
      assert s + b == b && s + Lines(b)[0] == Lines(b)[0];
    } else {
      assert s[0] != '\n';
      LinesSuffix(s[1..], b);
      assert (s + b)[1..] == s[1..] + b && (s + b)[0] == s[0];
      var r := Lines(s[1..] + b);
      assert [s[0]] + r[0] == s + Lines(b)[0];
      assert r[1..] == Lines(b)[1..];
    }
  }

  // ---------------------------------------------------------------- which lines are copied

  /** The string tests that bundle.js leaves to the JavaScript library. */
  datatype Matchers = Matchers(
    trim: string -> string,
    constRequire: string -> bool,    // /const .* require\(".*"\).*;/
    require: string -> bool,         // /require\(".*"\).*;/
    registryRequire: string -> bool, // /_ModuleRegistry\.require\(/
    registryModule: string -> bool)  // /const .* = _ModuleRegistry.module\(/

  const SkipStart := "/* slice2js browser-bundle-skip */"
  const SkipEnd := "/* slice2js browser-bundle-skip-end */"

  datatype Scan = Scan(skip: bool, skipAuto: bool)

  predicate IsExport(line: string) {
    "module.exports." <= line || "exports." <= line || "exports =" <= line
  }

  predicate IsRequire(m: Matchers, line: string) {
    m.constRequire(line) || m.require(line)
  }

  predicate IsRegistry(m: Matchers, line: string) {
    m.registryRequire(line) || m.registryModule(line)
  }

  /** One iteration of the line loop: whether the (trimmed) line is copied, and the new flags. */
  function Step(m: Matchers, line: string, s: Scan): (bool, Scan) {
    if line == SkipStart then (false, s.(skipAuto := true))
    else if line == SkipEnd then (false, s.(skipAuto := false))
    else if s.skipAuto || IsRequire(m, line) then (false, s)
    else if IsRegistry(m, line) then (false, if ';' in line then s else s.(skip := true))
    else if s.skip then (false, if ';' in line then s.(skip := false) else s)
    else (!IsExport(line), s)
  }

  function ScanAt(m: Matchers, lines: seq<string>, n: nat): Scan
    requires n <= |lines|
  {
    if n == 0 then Scan(false, false) else Step(m, m.trim(lines[n - 1]), ScanAt(m, lines, n - 1)).1
  }

  predicate Copied(m: Matchers, lines: seq<string>, j: nat)
    requires j < |lines|
  {
    Step(m, m.trim(lines[j]), ScanAt(m, lines, j)).0
  }

  /** The indices of the copied lines among the first n. */
  function CopiedLines(m: Matchers, lines: seq<string>, n: nat): (r: seq<nat>)
    requires n <= |lines|
    ensures forall j: nat :: j in r <==> j < n && Copied(m, lines, j)
    ensures forall a :: 0 <= a < |r| ==> r[a] < n
    ensures forall a, b :: 0 <= a < b < |r| ==> r[a] < r[b]
  {
    if n == 0 then []
    else if Copied(m, lines, n - 1) then CopiedLines(m, lines, n - 1) + [n - 1]
    else CopiedLines(m, lines, n - 1)
  }

  /** A skip marker precedes line n, with no end marker between. */
  ghost predicate InSkipRegion(m: Matchers, lines: seq<string>, n: nat)
    requires n <= |lines|
  {
    exists k :: 0 <= k < n && m.trim(lines[k]) == SkipStart
             && forall i :: k < i < n ==> m.trim(lines[i]) != SkipEnd
  }

  /** Line i is outside skip regions and is neither a marker nor a `require`. */
  ghost predicate Examined(m: Matchers, lines: seq<string>, i: nat)
    requires i < |lines|
  {
    var line := m.trim(lines[i]);
    line != SkipStart && line != SkipEnd && !InSkipRegion(m, lines, i) && !IsRequire(m, line)
  }

  /** A registry statement that started before line n has not reached its semicolon. */
  ghost predicate InRegistryStatement(m: Matchers, lines: seq<string>, n: nat)
    requires n <= |lines|
  {
    exists k :: 0 <= k < n && Opens(m, lines, k) && forall i :: k < i < n ==> !Closes(m, lines, i)
  }

  ghost predicate Opens(m: Matchers, lines: seq<string>, k: nat)
    requires k < |lines|
  {
    Examined(m, lines, k) && IsRegistry(m, m.trim(lines[k])) && ';' !in m.trim(lines[k])
  }

  ghost predicate Closes(m: Matchers, lines: seq<string>, k: nat)
    requires k < |lines|
  {
    Examined(m, lines, k) && !IsRegistry(m, m.trim(lines[k])) && ';' in m.trim(lines[k])
  }

  lemma {:induction false} ScanMeaning(m: Matchers, lines: seq<string>, n: nat)
    requires n <= |lines|
    ensures ScanAt(m, lines, n).skipAuto <==> InSkipRegion(m, lines, n)
    ensures ScanAt(m, lines, n).skip <==> InRegistryStatement(m, lines, n)
  {
    if n > 0 {
      ScanMeaning(m, lines, n - 1);
      var line, s := m.trim(lines[n - 1]), ScanAt(m, lines, n);
      SkipRegionStep(m, lines, n);
      RegistryStep(m, lines, n);
    }
  }

  lemma SkipRegionStep(m: Matchers, lines: seq<string>, n: nat)
    requires 0 < n <= |lines|
    ensures InSkipRegion(m, lines, n) <==>
              m.trim(lines[n - 1]) == SkipStart
              || (m.trim(lines[n - 1]) != SkipEnd && InSkipRegion(m, lines, n - 1))
  {
    if InSkipRegion(m, lines, n - 1) {
      var k :| 0 <= k < n - 1 && m.trim(lines[k]) == SkipStart
               && forall i :: k < i < n - 1 ==> m.trim(lines[i]) != SkipEnd;
    }
  }

  lemma RegistryStep(m: Matchers, lines: seq<string>, n: nat)
    requires 0 < n <= |lines|
    ensures InRegistryStatement(m, lines, n) <==>
              Opens(m, lines, n - 1)
              || (!Closes(m, lines, n - 1) && InRegistryStatement(m, lines, n - 1))
  {
    if InRegistryStatement(m, lines, n - 1) {
      var k :| 0 <= k < n - 1 && Opens(m, lines, k) && forall i :: k < i < n - 1 ==> !Closes(m, lines, i);
    }
  }

  /** Exactly these lines are copied: not a marker, not in a skip region, not a require or registry
      statement or one of its continuation lines, not an export. */
  lemma CopiedIff(m: Matchers, lines: seq<string>, j: nat)
    requires j < |lines|
    ensures Copied(m, lines, j) <==>
              Examined(m, lines, j) && !IsRegistry(m, m.trim(lines[j]))
              && !InRegistryStatement(m, lines, j) && !IsExport(m.trim(lines[j]))
  {
    ScanMeaning(m, lines, j);
  }

  /** A line that the loop has a reason to leave out, whatever stands before it. */
  ghost predicate LeftOut(m: Matchers, line: string) {
    || line == "/* slice2js browser-bundle-skip */" || line == "/* slice2js browser-bundle-skip-end */"
    || m.constRequire(line) || m.require(line) || m.registryRequire(line) || m.registryModule(line)
    || "module.exports." <= line || "exports." <= line || "exports =" <= line
  }

  lemma LeftOutIsNotCopied(m: Matchers, lines: seq<string>, j: nat)
    requires j < |lines| && LeftOut(m, m.trim(lines[j]))
    ensures !Copied(m, lines, j)
  {
  }

  /** Where there is no reason to leave any line out, all lines are copied. */
  lemma {:induction false} PlainLinesAreCopied(m: Matchers, lines: seq<string>, n: nat)
    requires n <= |lines| && forall j :: 0 <= j < n ==> !LeftOut(m, m.trim(lines[j]))
    ensures ScanAt(m, lines, n) == Scan(false, false) && forall j :: 0 <= j < n ==> Copied(m, lines, j)
  {
    if n > 0 {
      PlainLinesAreCopied(m, lines, n - 1);
    }
  }

  // ---------------------------------------------------------------- the bundle

  /** A bundled file: its contents and the name the source map knows it by. */
  datatype File = File(contents: string, source: string)

  datatype Mapping = Mapping(generated: nat, original: nat, source: string)

  const Indent := "        "

  function SourceLine(f: File, j: nat): string
    requires j <= Newlines(f.contents)
  {
    Lines(f.contents)[j]
  }

  /** The entry for line j (from 0) of file f names a line of `text` that is the indented copy of it.
      `drift` is how far the counter lags behind the text. */
  ghost predicate EntryFor(text: string, drift: nat, e: Mapping, f: File, j: nat) {
    && e.source == f.source
    && e.original == j + 1 <= Newlines(f.contents) + 1
    && 1 <= e.generated <= Newlines(text) - drift
    && Lines(text)[e.generated - 1 + drift] == Indent + SourceLine(f, j)
  }

  /** The (file, line) pairs that are copied from the first n files, in order. */
  function CopiedPairs(m: Matchers, files: seq<File>, n: nat): seq<(nat, nat)>
    requires n <= |files|
  {
    if n == 0 then []
    else
      CopiedPairs(m, files, n - 1) + Pairs(n - 1, AllCopied(m, files[n - 1]))
  }

  function AllCopied(m: Matchers, f: File): seq<nat> {
    CopiedLines(m, Lines(f.contents), |Lines(f.contents)|)
  }

  function Pairs(k: nat, js: seq<nat>): (r: seq<(nat, nat)>)
    ensures |r| == |js| && forall i :: 0 <= i < |r| ==> r[i] == (k, js[i])
  {
    seq(|js|, i requires 0 <= i < |js| => (k, js[i]))
  }

  /** The map has one right entry for each of the given lines, in order, and generated lines increase. */
  ghost predicate MapFor(text: string, drift: nat, map_: seq<Mapping>, files: seq<File>, at: seq<(nat, nat)>) {
    && |map_| == |at|
    && (forall i :: 0 <= i < |at| ==> at[i].0 < |files| && EntryFor(text, drift, map_[i], files[at[i].0], at[i].1))
    && (forall i, j :: 0 <= i < j < |map_| ==> map_[i].generated < map_[j].generated)
  }

  lemma MapForAppend(text: string, more: string, drift: nat, map_: seq<Mapping>, files: seq<File>,
                     at: seq<(nat, nat)>)
    requires AtLineStart(text) && MapFor(text, drift, map_, files, at)
    ensures MapFor(text + more, drift, map_, files, at)
  {
    NewlinesAppend(text, more);
    LinesAppend(text, more);
  }

  /** The counter and the map after some lines were written; the counter lags by `drift`. */
  ghost predicate Written(text: string, lineOffset: nat, drift: nat, map_: seq<Mapping>, files: seq<File>,
                          at: seq<(nat, nat)>) {
    && AtLineStart(text) && Newlines(text) == lineOffset + drift
    && MapFor(text, drift, map_, files, at)
    && forall i :: 0 <= i < |map_| ==> map_[i].generated <= lineOffset
  }

  lemma WriteText(text: string, more: string, lineOffset: nat, drift: nat, map_: seq<Mapping>, files: seq<File>,
                  at: seq<(nat, nat)>)
    requires Written(text, lineOffset, drift, map_, files, at) && AtLineStart(more)
    ensures Written(text + more, lineOffset + Newlines(more), drift, map_, files, at)
  {
    NewlinesAppend(text, more);
    MapForAppend(text, more, drift, map_, files, at);
  }

  /** Writing the indented copy of a source line together with its entry. */
  lemma WriteLine(text: string, lineOffset: nat, drift: nat, map_: seq<Mapping>, files: seq<File>,
                  at: seq<(nat, nat)>, k: nat, j: nat)
    requires Written(text, lineOffset, drift, map_, files, at)
    requires k < |files| && j <= Newlines(files[k].contents)
    ensures Written(text + Indent + SourceLine(files[k], j) + "\n", lineOffset + 1, drift,
                    map_ + [Mapping(lineOffset + 1, j + 1, files[k].source)], files, at + [(k, j)])
  {
    var line := Indent + SourceLine(files[k], j);
    LinesRoundTrip(files[k].contents);
    OneLine(line);
    WriteText(text, line + "\n", lineOffset, drift, map_, files, at);
    assert text + Indent + SourceLine(files[k], j) + "\n" == text + (line + "\n");
    LinesAppend(text, line + "\n");
  }

  /** Newlines inside the module names: each is written once per mention of a name, but not counted. */
  function ModuleNewlines(modules: seq<string>): nat {
    if modules == [] then 0 else ModuleNewlines(modules[..|modules| - 1]) + Newlines(modules[|modules| - 1])
  }

  lemma {:induction false} ModuleNewlinesZero(modules: seq<string>)
    ensures ModuleNewlines(modules) == 0 <==> forall i :: 0 <= i < |modules| ==> '\n' !in modules[i]
  {
    if modules != [] {
      var last := modules[|modules| - 1];
      ModuleNewlinesZero(modules[..|modules| - 1]);
      if k :| 0 <= k < |last| && last[k] == '\n' {
        NewlinesAppend(last[..k], last[k..]);
        assert last == last[..k] + last[k..];
      } else {
        NoNewlines(last);
      }
    }
  }

  /** A module name with a newline: the counter lags by four when the files are written, so that each entry
      names a line four above its copy, and by seven at the end. */
  lemma NewlineInName()
    ensures 4 * ModuleNewlines(["a\nb"]) == 4 && 6 * ModuleNewlines(["a\nb"]) + 1 == 7
  {
    assert ["a\nb"][..0] == [];
    assert Newlines("a\nb") == 1 by {
      assert "a\nb"[1..] == "\nb" && "\nb"[1..] == "b" && "b"[1..] == "";
    }
  }

  /** `sb.write(a + name + b + name + c + "\n")`: a line that mentions a module twice. */
  method WriteMention(sb: string, a: string, name: string, b: string, c: string) returns (r: string)
    requires '\n' !in a && '\n' !in b && '\n' !in c
    ensures r == sb + Mention(a, name, b, c)
    ensures sb <= r && AtLineStart(r) && Newlines(r) == Newlines(sb) + 1 + 2 * Newlines(name)
  {
    r := sb + (a + name + b + name + (c + "\n"));
    NoNewlines(a);
    NoNewlines(b);
    OneLine(c);
    NewlinesAppend(sb, a + name + b + name + (c + "\n"));
    NewlinesAppend(a + name + b + name, c + "\n");
    NewlinesAppend(a + name + b, name);
    NewlinesAppend(a + name, b);
    NewlinesAppend(a, name);
  }

  const Preamble := "(function()" + "\n" + "{" + "\n"
  const RootA := "    var root = typeof(window)"
  const RootB := " !== \"undefined\" ? window"
  const RootC := " : typeof(global) !== "
  const RootD := "\"undefined\" ? global : "
  const RootE := "typeof(self) !== "
  const RootF := "\"undefined\" ? self : {};"
  const RootLine := RootA + RootB + RootC + RootD + RootE + RootF + "\n"
  const IceLine := "    var ice = " + "root.ice || {};" + "\n"
  const Epilogue := "}());" + "\n" + "" + "\n"
  const ModulePreamble := "\n" + ("    (function()" + "\n" + "    {" + "\n")
  const ModuleEpilogue := "    }());" + "\n"

  /** Text made of two whole lines. */
  lemma TwoLines(s: string, a: string, b: string)
    requires s == a + "\n" + b + "\n" && '\n' !in a && '\n' !in b
    ensures Newlines(s) == 2
  {
    OneLine(a);
    OneLine(b);
    NewlinesAppend(a + "\n", b + "\n");
    assert s == (a + "\n") + (b + "\n");
  }

  lemma RootLineText()
    ensures Newlines(RootLine) == 1
  {
    assert '\n' !in RootA && '\n' !in RootB && '\n' !in RootC;
    assert '\n' !in RootD && '\n' !in RootE && '\n' !in RootF;
    OneLine(RootA + RootB + RootC + RootD + RootE + RootF);
  }

  lemma FixedText()
    ensures Newlines(Preamble) == 2 && Newlines(RootLine) == 1 && Newlines(IceLine) == 1
    ensures Newlines(Epilogue) == 2 && Newlines(ModulePreamble) == 3 && Newlines(ModuleEpilogue) == 1
  {
    TwoLines(Preamble, "(function()", "{");
    RootLineText();
    OneLine("    var ice = " + "root.ice || {};");
    TwoLines(Epilogue, "}());", "");
    TwoLines("    (function()" + "\n" + "    {" + "\n", "    (function()", "    {");
    NewlinesAppend("\n", "    (function()" + "\n" + "    {" + "\n");
    OneLine("    }());");
  }

  // ---------------------------------------------------------------- the text of a bundle

  const SliceLine := "    var Slice = Ice.Slice;" + "\n"
  const IceSliceLine := "    Ice.Slice = Ice.Slice || {};" + "\n"
  const RootIceLine := "    root.ice = ice;" + "\n"

  function Mention(a: string, name: string, b: string, c: string): string {
    a + name + b + name + (c + "\n")
  }

  /** The root objects of a module; module Ice has one more line. */
  function ModuleText(name: string): string {
    Mention("    root.", name, " = root.", " || {};") + Mention("    ice.", name, " = root.", ";")
    + if name == "Ice" then IceSliceLine else ""
  }

  function ModulesText(modules: seq<string>): string {
    if modules == [] then "" else ModulesText(modules[..|modules| - 1]) + ModuleText(modules[|modules| - 1])
  }

  function HeaderText(modules: seq<string>): string {
    Preamble + RootLine + IceLine + ModulesText(modules) + SliceLine
  }

  /** The indented copies of lines js of a file. */
  function CopiesText(f: File, js: seq<nat>): string
    requires forall i :: 0 <= i < |js| ==> js[i] <= Newlines(f.contents)
  {
    if js == [] then "" else CopiesText(f, js[..|js| - 1]) + (Indent + SourceLine(f, js[|js| - 1]) + "\n")
  }

  /** A file: the copies of its copied lines, in a closure. */
  function FileText(m: Matchers, f: File): string {
    ModulePreamble + CopiesText(f, AllCopied(m, f)) + ModuleEpilogue
  }

  function FilesText(m: Matchers, files: seq<File>): string {
    if files == [] then "" else FilesText(m, files[..|files| - 1]) + FileText(m, files[|files| - 1])
  }

  function ExportsText(modules: seq<string>): string {
    if modules == [] then ""
    else ExportsText(modules[..|modules| - 1]) + Mention("    root.", modules[|modules| - 1], " = ", ";")
  }

  function FooterText(modules: seq<string>): string {
    "\n" + ExportsText(modules) + RootIceLine + Epilogue
  }

  /** The whole bundle. */
  function BundleText(m: Matchers, files: seq<File>, modules: seq<string>): string {
    HeaderText(modules) + FilesText(m, files) + FooterText(modules)
  }

  /** What is written for a bundle is that of its modules, then that of its files, each on its own. */
  lemma {:induction false} FilesTextAppend(m: Matchers, a: seq<File>, b: seq<File>)
    ensures FilesText(m, a + b) == FilesText(m, a) + FilesText(m, b)
  {
    if b == [] {
      assert a + b == a;
    } else {
      var k := |b| - 1;
      FilesTextAppend(m, a, b[..k]);
      assert (a + b)[..|a + b| - 1] == a + b[..k];
      Regroup(FilesText(m, a), FilesText(m, b[..k]), FileText(m, b[k]));
    }
  }

  /** The root objects of modules Ice and Demo, of which only the first has a Slice object of its own. */
  lemma IceAndDemo()
    ensures ModulesText(["Ice", "Demo"])
         == ("    root." + "Ice" + " = root." + "Ice" + (" || {};" + "\n"))
            + ("    ice." + "Ice" + " = root." + "Ice" + (";" + "\n"))
            + ("    Ice.Slice = Ice.Slice || {};" + "\n")
            + (("    root." + "Demo" + " = root." + "Demo" + (" || {};" + "\n"))
               + ("    ice." + "Demo" + " = root." + "Demo" + (";" + "\n")))
  {
    var ice, demo := ModuleText("Ice"), ModuleText("Demo");
    assert ["Ice", "Demo"][..1] == ["Ice"] && ["Ice"][..0] == [];
    assert ModulesText(["Ice"]) == "" + ice == ice;
    assert "Demo" != "Ice";
    assert demo == Mention("    root.", "Demo", " = root.", " || {};") + Mention("    ice.", "Demo", " = root.", ";");
  }

  // ---------------------------------------------------------------- the emission loops

  /** Lines 325-340: the opening of the bundle and the root objects of the modules. */
  method WriteHeader(modules: seq<string>) returns (sb: string, lineOffset: nat)
    ensures sb == HeaderText(modules)
    ensures AtLineStart(sb) && Newlines(sb) == lineOffset + 4 * ModuleNewlines(modules)
  {
    FixedText();
    sb := Preamble;
    NewlinesAppend(sb, RootLine);
    sb := sb + RootLine;
    NewlinesAppend(sb, IceLine);
    sb := sb + IceLine;
    lineOffset := 4;
    sb, lineOffset := WriteModules(sb, lineOffset, modules);
    OneLine("    var Slice = Ice.Slice;");
    NewlinesAppend(sb, SliceLine);
    sb := sb + ("    var Slice = Ice.Slice;" + "\n");
    lineOffset := lineOffset + 1;
  }

  method WriteModules(sb0: string, offset0: nat, modules: seq<string>) returns (sb: string, lineOffset: nat)
    requires AtLineStart(sb0)
    ensures sb == sb0 + ModulesText(modules)
    ensures AtLineStart(sb)
    ensures Newlines(sb) - lineOffset == Newlines(sb0) - offset0 + 4 * ModuleNewlines(modules)
  {
    sb, lineOffset := sb0, offset0;
    assert sb0 == sb0 + "";
    for i := 0 to |modules|
      invariant sb == sb0 + ModulesText(modules[..i]) && AtLineStart(sb)
      invariant Newlines(sb) - lineOffset == Newlines(sb0) - offset0 + 4 * ModuleNewlines(modules[..i])
    {
      var name := modules[i];
      assert modules[..i + 1][..i] == modules[..i];
      Regroup(sb0, ModulesText(modules[..i]), ModuleText(name));
      sb, lineOffset := WriteModule(sb, lineOffset, name);
    }
    assert modules[..|modules|] == modules;
  }

  method WriteModule(sb0: string, offset0: nat, name: string) returns (sb: string, lineOffset: nat)
    requires AtLineStart(sb0)
    ensures sb == sb0 + ModuleText(name)
    ensures AtLineStart(sb)
    ensures Newlines(sb) - lineOffset == Newlines(sb0) - offset0 + 4 * Newlines(name)
  {
    lineOffset := offset0;
    ghost var root := Mention("    root.", name, " = root.", " || {};");
    ghost var ice := Mention("    ice.", name, " = root.", ";");
    sb := WriteMention(sb0, "    root.", name, " = root.", " || {};");
    lineOffset := lineOffset + 1;
    sb := WriteMention(sb, "    ice.", name, " = root.", ";");
    lineOffset := lineOffset + 1;
    Regroup(sb0, root, ice);
    if name == "Ice" {
      OneLine("    Ice.Slice = Ice.Slice || {};");
      NewlinesAppend(sb, IceSliceLine);
      Regroup(sb0, root + ice, IceSliceLine);
      sb := sb + ("    Ice.Slice = Ice.Slice || {};" + "\n");
      lineOffset := lineOffset + 1;
    } else {
      assert root + ice + "" == root + ice;
    }
  }

  /** Lines 361-434: the tests on one trimmed line. */
  method Classify(m: Matchers, line: string, skip0: bool, skipAuto0: bool)
    returns (copied: bool, skip: bool, skipAuto: bool)
    ensures (copied, Scan(skip, skipAuto)) == Step(m, line, Scan(skip0, skipAuto0))
  {
    copied, skip, skipAuto := false, skip0, skipAuto0;
    if line == SkipStart {
      skipAuto := true;
      return;
    }
    if line == SkipEnd {
      skipAuto := false;
      return;
    } else if skipAuto {
      return;
    }
    if m.constRequire(line) {
      return;
    }
    if m.require(line) {
      return;
    }
    if m.registryRequire(line) {
      if ';' !in line {
        skip := true;
      }
      return;
    }
    if m.registryModule(line) {
      if ';' !in line {
        skip := true;
      }
      return;
    }
    if skip {
      if ';' in line {
        skip := false;
      }
      return;
    }
    if "module.exports." <= line {
      return;
    } else if "exports." <= line {
      return;
    } else if "exports =" <= line {
      return;
    }
    copied := true;
  }

  lemma CopiedStep(m: Matchers, lines: seq<string>, k: nat, j: nat, at: seq<(nat, nat)>)
    requires j < |lines|
    ensures at + Pairs(k, CopiedLines(m, lines, j + 1))
         == at + Pairs(k, CopiedLines(m, lines, j)) + (if Copied(m, lines, j) then [(k, j)] else [])
  {
  }

  /** Lines 436-455: the copy of a line and its source-map entry. */
  method EmitLine(sb0: string, offset0: nat, map0: seq<Mapping>, file: File, out: string, j: nat,
                  ghost drift: nat, ghost files: seq<File>, ghost k: nat, ghost at: seq<(nat, nat)>)
    returns (sb: string, lineOffset: nat, sourceMap: seq<Mapping>)
    requires Written(sb0, offset0, drift, map0, files, at) && k < |files| && files[k] == file
    requires j <= Newlines(file.contents) && out == SourceLine(file, j)
    ensures sb == sb0 + (Indent + SourceLine(file, j) + "\n")
    ensures Written(sb, lineOffset, drift, sourceMap, files, at + [(k, j)])
  {
    WriteLine(sb0, offset0, drift, map0, files, at, k, j);
    sb := sb0 + Indent + out + "\n";
    sourceMap := map0 + [Mapping(offset0 + 1, j + 1, file.source)];
    lineOffset := offset0 + 1;
  }

  /** One turn of the line loop. */
  method CopyLine(sb0: string, offset0: nat, map0: seq<Mapping>, skip0: bool, skipAuto0: bool, m: Matchers,
                  file: File, j: nat, ghost drift: nat, ghost files: seq<File>, ghost k: nat,
                  ghost at: seq<(nat, nat)>)
    returns (sb: string, lineOffset: nat, sourceMap: seq<Mapping>, skip: bool, skipAuto: bool)
    requires k < |files| && files[k] == file && j < |Lines(file.contents)|
    requires Scan(skip0, skipAuto0) == ScanAt(m, Lines(file.contents), j)
    requires Written(sb0, offset0, drift, map0, files, at)
    ensures Scan(skip, skipAuto) == ScanAt(m, Lines(file.contents), j + 1)
    ensures Written(sb, lineOffset, drift, sourceMap, files,
                    at + if Copied(m, Lines(file.contents), j) then [(k, j)] else [])
    ensures sb == sb0 + LineText(m, file, j)
  {
    sb, lineOffset, sourceMap := sb0, offset0, map0;
    var out := Lines(file.contents)[j];
    var line := m.trim(out);
    var copied;
    copied, skip, skipAuto := Classify(m, line, skip0, skipAuto0);
    assert sb0 + "" == sb0;
    if copied {
      sb, lineOffset, sourceMap := EmitLine(sb, lineOffset, sourceMap, file, out, j, drift, files, k, at);
    }
  }

  /** What line j of a file adds to the bundle. */
  function LineText(m: Matchers, f: File, j: nat): string
    requires j < |Lines(f.contents)|
  {
    if Copied(m, Lines(f.contents), j) then Indent + SourceLine(f, j) + "\n" else ""
  }

  function CopiesUpTo(m: Matchers, f: File, n: nat): string
    requires n <= |Lines(f.contents)|
  {
    CopiesText(f, CopiedLines(m, Lines(f.contents), n))
  }

  lemma CopiesStep(m: Matchers, f: File, j: nat)
    requires j < |Lines(f.contents)|
    ensures CopiesUpTo(m, f, j + 1) == CopiesUpTo(m, f, j) + LineText(m, f, j)
  {
    var js := CopiedLines(m, Lines(f.contents), j);
    if Copied(m, Lines(f.contents), j) {
      assert (js + [j])[..|js|] == js;
    } else {
      assert CopiesText(f, js) + "" == CopiesText(f, js);
    }
  }

  /** What the line loop has done when it comes to line j. */
  ghost predicate Progress(m: Matchers, file: File, j: nat, drift: nat, files: seq<File>, k: nat,
                           at: seq<(nat, nat)>, sb0: string, sb: string, lineOffset: nat, sourceMap: seq<Mapping>,
                           scan: Scan) {
    && j <= |Lines(file.contents)| && scan == ScanAt(m, Lines(file.contents), j)
    && Written(sb, lineOffset, drift, sourceMap, files, at + Pairs(k, CopiedLines(m, Lines(file.contents), j)))
    && sb == sb0 + CopiesUpTo(m, file, j)
  }

  lemma ProgressStep(m: Matchers, file: File, j: nat, drift: nat, files: seq<File>, k: nat, at: seq<(nat, nat)>,
                     sb0: string, sb: string, sb': string, lineOffset: nat, sourceMap: seq<Mapping>, scan: Scan)
    requires j < |Lines(file.contents)| && sb == sb0 + CopiesUpTo(m, file, j)
    requires scan == ScanAt(m, Lines(file.contents), j + 1) && sb' == sb + LineText(m, file, j)
    requires Written(sb', lineOffset, drift, sourceMap, files,
                     at + Pairs(k, CopiedLines(m, Lines(file.contents), j))
                     + if Copied(m, Lines(file.contents), j) then [(k, j)] else [])
    ensures Progress(m, file, j + 1, drift, files, k, at, sb0, sb', lineOffset, sourceMap, scan)
  {
    CopiedStep(m, Lines(file.contents), k, j, at);
    CopiesStep(m, file, j);
    Regroup(sb0, CopiesUpTo(m, file, j), LineText(m, file, j));
  }

  /** Lines 346-455: the line loop. */
  method CopyLines(sb0: string, offset0: nat, map0: seq<Mapping>, m: Matchers, file: File,
                   ghost drift: nat, ghost files: seq<File>, ghost k: nat, ghost at: seq<(nat, nat)>)
    returns (sb: string, lineOffset: nat, sourceMap: seq<Mapping>)
    requires Written(sb0, offset0, drift, map0, files, at) && k < |files| && files[k] == file
    ensures Written(sb, lineOffset, drift, sourceMap, files, at + Pairs(k, AllCopied(m, file)))
    ensures sb == sb0 + CopiesText(file, AllCopied(m, file))
  {
    sb, lineOffset, sourceMap := sb0, offset0, map0;
    var lines := Lines(file.contents);
    var skip, skipAuto := false, false;
    assert sb0 == sb0 + "" && at + [] == at;
    for j := 0 to |lines|
      invariant Progress(m, file, j, drift, files, k, at, sb0, sb, lineOffset, sourceMap, Scan(skip, skipAuto))
    {
      ghost var before := sb;
      sb, lineOffset, sourceMap, skip, skipAuto :=
        CopyLine(sb, lineOffset, sourceMap, skip, skipAuto, m, file, j, drift, files, k,
                 at + Pairs(k, CopiedLines(m, lines, j)));
      ProgressStep(m, file, j, drift, files, k, at, sb0, before, sb, lineOffset, sourceMap, Scan(skip, skipAuto));
    }
  }

  /** Lines 342-457: one file, wrapped in a closure. */
  method WriteFile(sb0: string, offset0: nat, map0: seq<Mapping>, m: Matchers, file: File,
                   ghost drift: nat, ghost files: seq<File>, ghost k: nat, ghost at: seq<(nat, nat)>)
    returns (sb: string, lineOffset: nat, sourceMap: seq<Mapping>)
    requires Written(sb0, offset0, drift, map0, files, at) && k < |files| && files[k] == file
    ensures Written(sb, lineOffset, drift, sourceMap, files, at + Pairs(k, AllCopied(m, file)))
    ensures sb == sb0 + FileText(m, file)
  {
    FixedText();
    WriteText(sb0, ModulePreamble, offset0, drift, map0, files, at);
    sb, lineOffset, sourceMap :=
      CopyLines(sb0 + ModulePreamble, offset0 + 3, map0, m, file, drift, files, k, at);
    WriteText(sb, ModuleEpilogue, lineOffset, drift, sourceMap, files, at + Pairs(k, AllCopied(m, file)));
    Regroup(sb0, ModulePreamble, CopiesText(file, AllCopied(m, file)));
    Regroup(sb0, ModulePreamble + CopiesText(file, AllCopied(m, file)), ModuleEpilogue);
    sb := sb + ModuleEpilogue;
    lineOffset := lineOffset + 1;
  }

  /** Lines 458-474: the exports and the epilogue, whose two newlines are counted as one. */
  method WriteFooter(sb0: string, offset0: nat, modules: seq<string>) returns (sb: string, lineOffset: nat)
    requires AtLineStart(sb0)
    ensures sb == sb0 + FooterText(modules)
    ensures sb0 <= sb && AtLineStart(sb)
    ensures Newlines(sb) - lineOffset == Newlines(sb0) - offset0 + 2 * ModuleNewlines(modules) + 1
  {
    sb, lineOffset := WriteExports(sb0, offset0, modules);
    OneLine("    root.ice = ice;");
    NewlinesAppend(sb, RootIceLine);
    Regroup(sb0, "\n" + ExportsText(modules), RootIceLine);
    sb := sb + ("    root.ice = ice;" + "\n");
    lineOffset := lineOffset + 1;
    FixedText();
    NewlinesAppend(sb, Epilogue);
    Regroup(sb0, "\n" + ExportsText(modules) + RootIceLine, Epilogue);
    sb := sb + Epilogue;
    lineOffset := lineOffset + 1;
  }

  /** Lines 458-468. */
  method WriteExports(sb0: string, offset0: nat, modules: seq<string>) returns (sb: string, lineOffset: nat)
    requires AtLineStart(sb0)
    ensures sb == sb0 + ("\n" + ExportsText(modules))
    ensures AtLineStart(sb)
    ensures Newlines(sb) - lineOffset == Newlines(sb0) - offset0 + 2 * ModuleNewlines(modules)
  {
    OneLine("");
    NewlinesAppend(sb0, "" + "\n");
    sb, lineOffset := sb0 + ("" + "\n"), offset0 + 1;
    assert "" + "\n" == "\n" + "";
    for i := 0 to |modules|
      invariant sb == sb0 + ("\n" + ExportsText(modules[..i])) && AtLineStart(sb)
      invariant Newlines(sb) - lineOffset == Newlines(sb0) - offset0 + 2 * ModuleNewlines(modules[..i])
    {
      var name := modules[i];
      assert modules[..i + 1][..i] == modules[..i];
      Regroup(sb0, "\n" + ExportsText(modules[..i]), Mention("    root.", name, " = ", ";"));
      Regroup("\n", ExportsText(modules[..i]), Mention("    root.", name, " = ", ";"));
      sb := WriteMention(sb, "    root.", name, " = ", ";");
      lineOffset := lineOffset + 1;
    }
    assert modules[..|modules|] == modules;
  }

  /** Lines 341-457: the files, in the given order. */
  method WriteFiles(sb0: string, offset0: nat, files: seq<File>, m: Matchers, ghost drift: nat)
    returns (sb: string, lineOffset: nat, sourceMap: seq<Mapping>)
    requires Written(sb0, offset0, drift, [], files, [])
    ensures sb == sb0 + FilesText(m, files)
    ensures Written(sb, lineOffset, drift, sourceMap, files, CopiedPairs(m, files, |files|))
  {
    sb, lineOffset, sourceMap := sb0, offset0, [];
    assert sb == sb0 + "";
    for k := 0 to |files|
      invariant sb == sb0 + FilesText(m, files[..k])
      invariant Written(sb, lineOffset, drift, sourceMap, files, CopiedPairs(m, files, k))
    {
      FilesStep(m, files, k, sb0);
      sb, lineOffset, sourceMap :=
        WriteFile(sb, lineOffset, sourceMap, m, files[k], drift, files, k, CopiedPairs(m, files, k));
    }
    assert files[..|files|] == files;
  }

  lemma FilesStep(m: Matchers, files: seq<File>, k: nat, sb0: string)
    requires k < |files|
    ensures sb0 + FilesText(m, files[..k + 1]) == sb0 + FilesText(m, files[..k]) + FileText(m, files[k])
    ensures CopiedPairs(m, files, k + 1) == CopiedPairs(m, files, k) + Pairs(k, AllCopied(m, files[k]))
  {
    assert files[..k + 1][..k] == files[..k];
    Regroup(sb0, FilesText(m, files[..k]), FileText(m, files[k]));
  }

  /** The bundle of the files, in the given order: the map has one entry for each copied line and no
      other, in order, and each is right up to the newlines inside module names. */
  method Bundle(files: seq<File>, modules: seq<string>, m: Matchers)
    returns (out: string, lineOffset: nat, sourceMap: seq<Mapping>)
    ensures out == BundleText(m, files, modules)
    ensures MapFor(out, 4 * ModuleNewlines(modules), sourceMap, files, CopiedPairs(m, files, |files|))
    ensures Newlines(out) == lineOffset + 6 * ModuleNewlines(modules) + 1
  {
    ghost var drift := 4 * ModuleNewlines(modules);
    out, lineOffset := WriteHeader(modules);
    out, lineOffset, sourceMap := WriteFiles(out, lineOffset, files, m, drift);
    ghost var body := out;
    out, lineOffset := WriteFooter(out, lineOffset, modules);
    MapForAppend(body, FooterText(modules), drift, sourceMap, files, CopiedPairs(m, files, |files|));
  }
}
