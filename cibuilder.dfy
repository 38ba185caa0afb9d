/** The string and list logic of the `CIBuilder` test base: the bitbake
    command line, the `ci_build.conf` it writes and the `include` it adds to
    `local.conf`, the `KEY=VALUE` environment dumps it parses, and the
    `.ci-backup` copies it makes and restores.

    Files are a `Workspace` object holding a map from path to contents.
    Running processes, changing directory and updating `os.environ` are not
    part of this model; the command output they would give comes in as a
    parameter. */
module CIBuilder {
  import opened Text

  datatype Error =
    | NoSeparator(line: string)   // `dict()` got a one-element `split` result
    | MissingKey(key: string)     // `KeyError`
    | FileNotFound(path: string)  // opening, copying or moving a missing file

  datatype Outcome = Done | Failed(error: Error)

  // ---- the bitbake command line ----------------------------------------

  /** `target` is either one string or a list of them. */
  datatype Target = Single(name: string) | Several(names: seq<string>)

  function TargetWords(target: Target): seq<string>
  {
    match target
    case Single(name) => [name]
    case Several(names) => names
  }

  /** `CIBuilder.bitbake`: the list starts as `bitbake`, gets `args` when it
      is non-empty, `-c cmd` when `cmd` is non-empty, and then the targets;
      the line run is the list joined with single spaces. */
  method BitbakeCommandLine(target: Target, cmd: string, args: string)
    returns (cmdline: seq<string>, line: string)
    ensures cmdline ==
      ["bitbake"]
      + (if args != "" then [args] else [])
      + (if cmd != "" then ["-c", cmd] else [])
      + TargetWords(target)
    ensures line == JoinWords(cmdline)
    ensures (forall i :: 0 <= i < |cmdline| ==> IsWord(cmdline[i])) ==> SplitWords(line) == cmdline
  {
    ghost var withArgs := ["bitbake"] + (if args != "" then [args] else []);
    ghost var withCmd := withArgs + (if cmd != "" then ["-c", cmd] else []);
    cmdline := ["bitbake"];
    if args != "" {
      cmdline := cmdline + [args];
    }
    assert cmdline == withArgs;
    if cmd != "" {
      cmdline := cmdline + ["-c"];
      cmdline := cmdline + [cmd];
      assert cmdline == withArgs + ["-c", cmd];
    }
    assert cmdline == withCmd;
    match target {
      case Several(names) =>
        cmdline := cmdline + names;
      case Single(name) =>
        cmdline := cmdline + [name];
    }
    line := JoinWords(cmdline);
    if forall i :: 0 <= i < |cmdline| ==> IsWord(cmdline[i]) {
      FieldsOfJoin(cmdline, ' ', IsSpace);
    }
  }

  // ---- ci_build.conf ---------------------------------------------------

  const CompatLines: seq<string> := [
    "ISAR_ENABLE_COMPAT_ARCH_amd64 = \"1\"",
    "ISAR_ENABLE_COMPAT_ARCH_arm64 = \"1\"",
    "ISAR_ENABLE_COMPAT_ARCH_debian-stretch_amd64 = \"0\""
  ]
  const CrossLine := "ISAR_CROSS_COMPILE = \"1\""
  const DebSrcLine := "BASE_REPO_FEATURES = \"cache-deb-src\""

  /** Every line `confprepare` can write, in the order it writes them. */
  const AllLines: seq<string> := CompatLines + [CrossLine, DebSrcLine]

  /** Which of `AllLines` the three switches enable. */
  function Switches(compatArch: bool, cross: bool, debsrcCache: bool): seq<bool>
  {
    [compatArch, compatArch, compatArch, cross, debsrcCache]
  }

  function CiBuildPath(buildDir: string): string
  {
    buildDir + "/conf/ci_build.conf"
  }

  function LocalConfPath(buildDir: string): string
  {
    buildDir + "/conf/local.conf"
  }

  lemma ConfPathsDiffer(buildDir: string)
    ensures CiBuildPath(buildDir) != LocalConfPath(buildDir)
  {
    assert CiBuildPath(buildDir)[|buildDir| + 6] == 'c';
    assert LocalConfPath(buildDir)[|buildDir| + 6] == 'l';
  }

  /** The lines of `ci_build.conf`, block by block as they are written. */
  function CiBuildLines(compatArch: bool, cross: bool, debsrcCache: bool): seq<string>
  {
    (if compatArch then CompatLines else [])
    + (if cross then [CrossLine] else [])
    + (if debsrcCache then [DebSrcLine] else [])
  }

  function CiBuildConf(compatArch: bool, cross: bool, debsrcCache: bool): string
  {
    Unlines(CiBuildLines(compatArch, cross, debsrcCache))
  }

  /** The elements of `xs` whose flag is set, in their order in `xs`. */
  function Select(xs: seq<string>, keep: seq<bool>): (r: seq<string>)
    requires |keep| == |xs|
    ensures |r| <= |xs|
  {
    if xs == [] then []
    else (if keep[0] then [xs[0]] else []) + Select(xs[1..], keep[1..])
  }

  /** Exactly the flagged elements are selected. */
  lemma {:induction false} SelectMembers(xs: seq<string>, keep: seq<bool>)
    requires |keep| == |xs|
    ensures forall i :: 0 <= i < |xs| && keep[i] ==> xs[i] in Select(xs, keep)
    ensures forall l :: l in Select(xs, keep) ==> exists i :: 0 <= i < |xs| && keep[i] && xs[i] == l
  {
    if xs != [] {
      SelectMembers(xs[1..], keep[1..]);
      assert forall i :: 1 <= i < |xs| ==> xs[i] == xs[1..][i - 1] && keep[i] == keep[1..][i - 1];
    }
  }

  /** The written lines are exactly the enabled ones of `AllLines`, in the
      same order. */
  lemma CiBuildLinesSelect(compatArch: bool, cross: bool, debsrcCache: bool)
    ensures CiBuildLines(compatArch, cross, debsrcCache) == Select(AllLines, Switches(compatArch, cross, debsrcCache))
  {
    var c := CompatLines;
    assert c == [c[0], c[1], c[2]];
    assert AllLines == [c[0], c[1], c[2], CrossLine, DebSrcLine];
    SelectBlocks(c[0], c[1], c[2], CrossLine, DebSrcLine, compatArch, cross, debsrcCache);
  }

  /** Selecting from five lines with the first three sharing one switch. */
  lemma SelectBlocks(a: string, b: string, c: string, d: string, e: string, p: bool, q: bool, r: bool)
    ensures Select([a, b, c, d, e], [p, p, p, q, r]) ==
      (if p then [a, b, c] else []) + (if q then [d] else []) + (if r then [e] else [])
  {
    var xs, ks := [a, b, c, d, e], [p, p, p, q, r];
    assert xs[1..] == [b, c, d, e] && ks[1..] == [p, p, q, r];
    assert xs[2..] == [c, d, e] && ks[2..] == [p, q, r];
    assert xs[3..] == [d, e] && ks[3..] == [q, r];
    assert xs[4..] == [e] && ks[4..] == [r];
    assert Select([e], [r]) == (if r then [e] else []) + Select([], []);
    assert Select([d, e], [q, r]) == (if q then [d] else []) + Select([e], [r]);
    assert Select([c, d, e], [p, q, r]) == (if p then [c] else []) + Select([d, e], [q, r]);
    assert Select([b, c, d, e], [p, p, q, r]) == (if p then [b] else []) + Select([c, d, e], [p, q, r]);
  }

  /** A line of `AllLines` is in `ci_build.conf` if and only if its switch
      is on, and no other line is ever written. */
  lemma CiBuildLinesIff(compatArch: bool, cross: bool, debsrcCache: bool)
    ensures var ls := CiBuildLines(compatArch, cross, debsrcCache);
      var keep := Switches(compatArch, cross, debsrcCache);
      && (forall i :: 0 <= i < |AllLines| ==> (AllLines[i] in ls <==> keep[i]))
      && (forall l :: l in ls ==> l in AllLines)
  {
    var ls := CiBuildLines(compatArch, cross, debsrcCache);
    var keep := Switches(compatArch, cross, debsrcCache);
    CiBuildLinesSelect(compatArch, cross, debsrcCache);
    SelectMembers(AllLines, keep);
    forall i | 0 <= i < |AllLines| && AllLines[i] in ls
      ensures keep[i]
    {
      var j :| 0 <= j < |AllLines| && keep[j] && AllLines[j] == AllLines[i];
      AllLinesDistinct(i, j);
    }
  }

  lemma AllLinesDistinct(i: nat, j: nat)
    requires i < |AllLines| && j < |AllLines| && AllLines[i] == AllLines[j]
    ensures i == j
  {
    assert CompatLines[0][24] == 'a' && CompatLines[1][24] == 'a' && CompatLines[2][24] == 'd';
    assert CompatLines[0][25] == 'm' && CompatLines[1][25] == 'r';
    assert CrossLine[5] == 'C' && DebSrcLine[0] == 'B' && CompatLines[0][5] == 'E';
  }

  // ---- the include line in local.conf ----------------------------------

  const IncludeDirective := "include ci_build.conf"

  /** Index of the first newline of `s`, or `|s|` when it has none. */
  function LineEnd(s: string): (k: nat)
    ensures k <= |s|
    ensures k < |s| ==> s[k] == '\n'
  {
    if s == [] then 0
    else if s[0] == '\n' then 0
    else 1 + LineEnd(s[1..])
  }

  /** `LineEnd` is `str.find('\n')` with `|s|` for "not found"; it is kept
      apart from `IndexOf` so that the line proofs below do not carry the
      latter's quantified clause. */
  lemma {:induction false} LineEndIsIndexOf(s: string)
    ensures LineEnd(s) == IndexOf(s, '\n')
    decreases |s|
  {
    if s != [] && s[0] != '\n' {
      LineEndIsIndexOf(s[1..]);
    }
  }

  /** What iterating over a text file yields: pieces each ending with its
      newline, the last one without a newline when the file does not end
      with one. */
  function FileLines(s: string): seq<string>
    decreases |s|
  {
    if s == [] then []
    else
      var k := LineEnd(s);
      if k == |s| then [s] else [s[..k + 1]] + FileLines(s[k + 1..])
  }

  predicate SomeLineContains(lines: seq<string>, t: string)
  {
    exists i :: 0 <= i < |lines| && Contains(lines[i], t)
  }

  /** Text with no newline in it occurs in `a + b`, where `a` ends with a
      newline, exactly when it occurs in `a` or in `b`. */
  lemma ContainsAcrossNewline(a: string, b: string, t: string)
    requires a != [] && a[|a| - 1] == '\n' && '\n' !in t
    ensures Contains(a + b, t) <==> Contains(a, t) || Contains(b, t)
  {
    var s := a + b;
    if Contains(a, t) {
      var i :| 0 <= i <= |a| - |t| && IsAt(a, t, i);
      assert s[i..i + |t|] == a[i..i + |t|];
      assert IsAt(s, t, i);
    }
    if Contains(b, t) {
      var i :| 0 <= i <= |b| - |t| && IsAt(b, t, i);
      assert s[|a| + i..|a| + i + |t|] == b[i..i + |t|];
      assert IsAt(s, t, |a| + i);
    }
    if Contains(s, t) {
      var i :| 0 <= i <= |s| - |t| && IsAt(s, t, i);
      forall j | i <= j < i + |t|
        ensures s[j] != '\n'
      {
        assert s[j] == s[i..i + |t|][j - i] == t[j - i];
        assert t[j - i] in t;
      }
      assert s[|a| - 1] == '\n';
      if i + |t| <= |a| {
        assert a[i..i + |t|] == s[i..i + |t|];
        assert IsAt(a, t, i);
      } else {
        assert i >= |a|;
        assert b[i - |a|..i - |a| + |t|] == s[i..i + |t|];
        assert IsAt(b, t, i - |a|);
      }
    }
  }

  /** Since the pattern holds no newline, looking for it line by line is the
      same as looking for it anywhere in the file. */
  lemma {:induction false} LineSearch(s: string, t: string)
    requires '\n' !in t
    requires t != []
    ensures SomeLineContains(FileLines(s), t) <==> Contains(s, t)
    decreases |s|
  {
    if s == [] {
    } else {
      var k := LineEnd(s);
      if k == |s| {
        OneLine(s);
        SomeLineContainsCons(s, [], t);
      } else {
        var head, rest := s[..k + 1], s[k + 1..];
        assert s == head + rest;
        FirstLine(s);
        LineSearch(rest, t);
        ContainsAcrossNewline(head, rest, t);
        SomeLineContainsCons(head, FileLines(rest), t);
      }
    }
  }

  /** Some line of `[head] + lines` holds `t` when `head` or some line of
      `lines` does. */
  lemma SomeLineContainsCons(head: string, lines: seq<string>, t: string)
    ensures SomeLineContains([head] + lines, t) <==> Contains(head, t) || SomeLineContains(lines, t)
  {
    var all := [head] + lines;
    if SomeLineContains(all, t) {
      var i :| 0 <= i < |all| && Contains(all[i], t);
      if i > 0 {
        assert lines[i - 1] == all[i];
      }
    }
    if SomeLineContains(lines, t) {
      var i :| 0 <= i < |lines| && Contains(lines[i], t);
      assert all[i + 1] == lines[i];
    }
    assert all[0] == head;
  }

  /** The `for line in f: ... break` scan of `local.conf`. */
  method FindIncludeLine(content: string) returns (found: bool)
    ensures found <==> SomeLineContains(FileLines(content), IncludeDirective)
    ensures found <==> Contains(content, IncludeDirective)
  {
    var lines := FileLines(content);
    found := false;
    var i := 0;
    while i < |lines| && !found
      invariant 0 <= i <= |lines|
      invariant found <==> SomeLineContains(lines[..i], IncludeDirective)
    {
      if Contains(lines[i], IncludeDirective) {
        assert lines[..i + 1][i] == lines[i];
        found := true;
      } else {
        assert forall j :: 0 <= j < i ==> lines[..i + 1][j] == lines[..i][j];
      }
      i := i + 1;
    }
    if found {
      var j :| 0 <= j < i && Contains(lines[..i][j], IncludeDirective);
      assert lines[j] == lines[..i][j];
    } else {
      assert lines[..i] == lines;
    }
    LineSearch(content, IncludeDirective);
  }

  /** `local.conf` after the scan: unchanged when a line already includes
      `ci_build.conf`, otherwise with the include on a line of its own at
      the end. */
  function IncludeCiBuild(content: string): (r: string)
    ensures |content| <= |r| && r[..|content|] == content
    ensures Contains(content, IncludeDirective) ==> r == content
    ensures !Contains(content, IncludeDirective) ==> |r| == |content| + 1 + |IncludeDirective|
  {
    if Contains(content, IncludeDirective) then content
    else content + "\n" + IncludeDirective
  }

  /** After the step `local.conf` always includes `ci_build.conf`, so a
      second `confprepare` adds nothing. */
  lemma IncludeIdempotent(content: string)
    ensures Contains(IncludeCiBuild(content), IncludeDirective)
    ensures IncludeCiBuild(IncludeCiBuild(content)) == IncludeCiBuild(content)
  {
    var once := IncludeCiBuild(content);
    if !Contains(content, IncludeDirective) {
      assert once[|content| + 1..] == IncludeDirective;
      assert IsAt(once, IncludeDirective, |content| + 1);
    }
  }

  lemma {:induction false} FirstNewlineOfConcat(x: string, t: string)
    requires LineEnd(x) < |x|
    ensures LineEnd(x + t) == LineEnd(x)
  {
    if x[0] != '\n' {
      assert (x + t)[1..] == x[1..] + t;
      FirstNewlineOfConcat(x[1..], t);
    }
  }

  /** A file with a newline in it starts with the line that ends there. */
  lemma {:induction false} FirstLine(s: string)
    requires LineEnd(s) < |s|
    ensures var k := LineEnd(s);
      FileLines(s) == [s[..k + 1]] + FileLines(s[k + 1..])
  {
  }

  /** Text without a newline ends its only line at its end. */
  lemma {:induction false} NoNewline(t: string)
    requires '\n' !in t
    ensures LineEnd(t) == |t|
  {
    if t != [] {
      assert '\n' !in t[1..];
      NoNewline(t[1..]);
    }
  }

  /** Text that ends with a newline has a first newline. */
  lemma {:induction false} HasLineEnd(x: string)
    requires x != [] && x[|x| - 1] == '\n'
    ensures LineEnd(x) < |x|
  {
    if x[0] != '\n' {
      assert x[1..][|x[1..]| - 1] == x[|x| - 1];
      HasLineEnd(x[1..]);
    }
  }

  /** A file without a newline is one line. */
  lemma {:induction false} OneLine(t: string)
    requires t != [] && LineEnd(t) == |t|
    ensures FileLines(t) == [t]
  {
    assert t[..|t|] == t;
  }

  /** Appending text after a newline leaves the line that ends there
      alone. */
  lemma {:induction false} AppendStep(x: string, t: string)
    requires LineEnd(x) < |x|
    ensures var k := LineEnd(x);
      FileLines(x + t) == [x[..k + 1]] + FileLines(x[k + 1..] + t)
  {
    var k := LineEnd(x);
    FirstNewlineOfConcat(x, t);
    ConcatSlices(x, t, k + 1);
    LineAt(x + t, k, x[..k + 1], x[k + 1..] + t);
  }

  /** The unfolding of `FileLines` at a known first newline, with the two
      pieces named. */
  lemma {:induction false} LineAt(s: string, k: nat, line: string, rest: string)
    requires k == LineEnd(s) && k < |s|
    requires line == s[..k + 1] && rest == s[k + 1..]
    ensures FileLines(s) == [line] + FileLines(rest)
  {
  }

  lemma ConcatSlices(x: string, t: string, j: nat)
    requires j <= |x|
    ensures (x + t)[..j] == x[..j] && (x + t)[j..] == x[j..] + t
  {
  }

  /** A file read line by line gains one more line. */
  lemma {:induction false} FileLinesAppend(x: string, t: string)
    requires x != [] && x[|x| - 1] == '\n'
    requires t != [] && LineEnd(t) == |t|
    ensures FileLines(x + t) == FileLines(x) + [t]
    decreases |x|
  {
    HasLineEnd(x);
    var k := LineEnd(x);
    var rest := x[k + 1..];
    FirstLine(x);
    AppendStep(x, t);
    if rest == [] {
      assert rest + t == t;
      OneLine(t);
    } else {
      assert rest[|rest| - 1] == x[|x| - 1];
      FileLinesAppend(rest, t);
    }
  }

  /** Iterating over a file loses nothing: its lines, written one after
      the other, give the file back. */
  lemma {:induction false} FileLinesJoin(s: string)
    ensures Concat(FileLines(s)) == s
    decreases |s|
  {
    if s != [] {
      var k := LineEnd(s);
      if k == |s| {
        OneLine(s);
        ConcatCons(s, []);
      } else {
        var rest := s[k + 1..];
        assert Concat(FileLines(s)) == s[..k + 1] + Concat(FileLines(rest)) by {
          FirstLine(s);
          ConcatCons(s[..k + 1], FileLines(rest));
        }
        FileLinesJoin(rest);
        assert s[..k + 1] + rest == s;
      }
    }
  }

  /** No line of a file is empty. */
  lemma {:induction false} FileLinesNonEmpty(s: string)
    ensures forall i :: 0 <= i < |FileLines(s)| ==> FileLines(s)[i] != []
    decreases |s|
  {
    if s != [] {
      var k := LineEnd(s);
      if k == |s| {
        OneLine(s);
      } else {
        var rest := s[k + 1..];
        FirstLine(s);
        FileLinesNonEmpty(rest);
        var ls := FileLines(s);
        assert forall i :: 1 <= i < |ls| ==> ls[i] == FileLines(rest)[i - 1];
      }
    }
  }

  /** A line that ends with a newline. */
  predicate EndsWithNewline(w: string)
  {
    w != [] && w[|w| - 1] == '\n'
  }

  /** A line with no newline before its last character. */
  predicate NewlineOnlyAtEnd(w: string)
  {
    forall j :: 0 <= j < |w| - 1 ==> w[j] != '\n'
  }

  /** Where the newlines fall: every line but the last ends with one, no
      line holds one before its end, and the last line ends with one exactly
      when the file does. */
  lemma {:induction false} FileLinesBreaks(s: string)
    ensures forall i :: 0 <= i < |FileLines(s)| - 1 ==> EndsWithNewline(FileLines(s)[i])
    ensures forall i :: 0 <= i < |FileLines(s)| ==> NewlineOnlyAtEnd(FileLines(s)[i])
    ensures s != [] ==> FileLines(s) != []
    ensures s != [] ==> (EndsWithNewline(FileLines(s)[|FileLines(s)| - 1]) <==> s[|s| - 1] == '\n')
    decreases |s|
  {
    if s != [] {
      var k := LineEnd(s);
      LineEndIsIndexOf(s);
      if k == |s| {
        OneLine(s);
      } else {
        var rest := s[k + 1..];
        var head := s[..k + 1];
        FirstLine(s);
        assert EndsWithNewline(head);
        assert NewlineOnlyAtEnd(head);
        FileLinesBreaks(rest);
        var ls := FileLines(s);
        assert forall i :: 1 <= i < |ls| ==> ls[i] == FileLines(rest)[i - 1];
        if rest == [] {
          assert ls == [head];
        } else {
          assert rest[|rest| - 1] == s[|s| - 1];
        }
      }
    }
  }

  lemma ConcatCons(a: string, ls: seq<string>)
    ensures Concat([a] + ls) == a + Concat(ls)
  {
    assert ([a] + ls)[1..] == ls;
  }

  /** Because of the leading newline the include always becomes a line of
      its own, even when `local.conf` does not end with a newline. */
  lemma IncludeOnOwnLine(content: string)
    requires !Contains(content, IncludeDirective)
    ensures var lines := FileLines(IncludeCiBuild(content));
      lines == FileLines(content + "\n") + [IncludeDirective]
  {
    var c := content + "\n";
    assert IncludeCiBuild(content) == c + IncludeDirective;
    NoNewline(IncludeDirective);
    FileLinesAppend(c, IncludeDirective);
  }

  // ---- parsing KEY=VALUE dumps -----------------------------------------

  /** The line boundaries of Python's `str.splitlines`. */
  predicate IsLineBreak(c: char)
  {
    c in {'\n', '\r', '\U{0B}', '\U{0C}', '\U{1C}', '\U{1D}', '\U{1E}', '\U{85}', '\U{2028}', '\U{2029}'}
  }

  /** `[x for x in s.splitlines() if x != '']`: the text between line
      boundaries, empty pieces dropped (a `\r\n` pair only adds an empty
      piece). */
  function NonEmptyLines(s: string): seq<string>
  {
    Fields(s, IsLineBreak)
  }

  /** Every piece is non-empty and holds no line boundary. */
  lemma NonEmptyLinesAreLines(s: string)
    ensures forall i :: 0 <= i < |NonEmptyLines(s)| ==> IsField(NonEmptyLines(s)[i], IsLineBreak)
  {
    FieldsAreFields(s, IsLineBreak);
  }

  /** Lines that are non-empty and hold no boundary come back from the text
      that lists them one per line. */
  lemma NonEmptyLinesOfJoin(ls: seq<string>)
    requires forall i :: 0 <= i < |ls| ==> IsField(ls[i], IsLineBreak)
    ensures NonEmptyLines(JoinWith(ls, '\n')) == ls
  {
    FieldsOfJoin(ls, '\n', IsLineBreak);
  }

  /** Blank lines are skipped: for lines that hold no boundary, some of them
      possibly empty, the kept lines are the non-empty ones, in order. */
  lemma NonEmptyLinesSkipsBlank(ls: seq<string>)
    requires forall i, j :: 0 <= i < |ls| && 0 <= j < |ls[i]| ==> !IsLineBreak(ls[i][j])
    ensures NonEmptyLines(JoinWith(ls, '\n')) == DropEmpty(ls)
  {
    FieldsOfJoinDropsEmpty(ls, '\n', IsLineBreak);
  }

  /** A dump with a blank line in the middle keeps both of its entries. */
  lemma BlankLineSkipped()
    ensures NonEmptyLines("A=1\n\nB=2") == ["A=1", "B=2"]
  {
    var ls := ["A=1", "", "B=2"];
    assert JoinWith(ls, '\n') == "A=1\n\nB=2";
    NonEmptyLinesSkipsBlank(ls);
    assert DropEmpty(ls) == ["A=1"] + DropEmpty(ls[1..]);
    assert DropEmpty(ls[1..]) == DropEmpty(ls[2..]);
    assert DropEmpty(ls[2..]) == ["B=2"] + DropEmpty([]);
  }

  /** Text before the first `=`, or the whole line when it has none. */
  function Key(line: string): string
  {
    line[..IndexOf(line, '=')]
  }

  /** Text after the first `=`, or nothing when it has none. */
  function Value(line: string): string
  {
    var k := IndexOf(line, '=');
    if k == |line| then "" else line[k + 1..]
  }

  /** `dict(x.split("=", 1) for x in lines)`. */
  function ParseEnvLines(lines: seq<string>): (r: Result<map<string, string>, Error>)
    ensures r.Ok? <==> forall i :: 0 <= i < |lines| ==> '=' in lines[i]
    ensures r.Err? ==> exists i :: 0 <= i < |lines| && '=' !in lines[i] && r.error == NoSeparator(lines[i])
                                   && forall j :: 0 <= j < i ==> '=' in lines[j]
  {
    if lines == [] then Ok(map[])
    else
      var n := |lines| - 1;
      var init := lines[..n];
      assert forall i :: 0 <= i < n ==> init[i] == lines[i];
      match ParseEnvLines(init)
      case Err(e) => Err(e)
      case Ok(m) =>
        match SplitFirst(lines[n], '=')
        case None => Err(NoSeparator(lines[n]))
        case Some(kv) =>
          assert kv.0 == Key(lines[n]) && kv.1 == Value(lines[n]) by {
            var k := IndexOf(lines[n], '=');
            assert lines[n][..k] + ['='] + lines[n][k + 1..] == lines[n];
          }
          Ok(m[kv.0 := kv.1])
  }

  /** `k = v` lines, with the key before the first `=`. */
  lemma KeyValueOfLine(line: string)
    requires '=' in line
    ensures SplitFirst(line, '=') == Some((Key(line), Value(line)))
  {
    var k := IndexOf(line, '=');
    assert line[..k] + ['='] + line[k + 1..] == line;
  }

  /** Line `i` is the last of `lines` whose key is `k`. */
  predicate LastWithKey(lines: seq<string>, i: int, k: string)
  {
    0 <= i < |lines| && Key(lines[i]) == k && forall j :: i < j < |lines| ==> Key(lines[j]) != k
  }

  lemma LastWithKeyExtend(lines: seq<string>, line: string, i: int, k: string)
    requires LastWithKey(lines, i, k) && Key(line) != k
    ensures LastWithKey(lines + [line], i, k)
  {
    var ls := lines + [line];
    forall j | i < j < |ls| ensures Key(ls[j]) != k {
      if j < |lines| {
        assert ls[j] == lines[j];
      }
    }
  }

  /** One more line updates the map parsed so far with its key and value. */
  lemma ParseEnvStep(lines: seq<string>)
    requires lines != [] && ParseEnvLines(lines).Ok?
    ensures var n := |lines| - 1;
      && ParseEnvLines(lines[..n]).Ok?
      && ParseEnvLines(lines).value == ParseEnvLines(lines[..n]).value[Key(lines[n]) := Value(lines[n])]
  {
    KeyValueOfLine(lines[|lines| - 1]);
  }

  /** Every line's key is in the parsed map. */
  lemma {:induction false} ParseEnvKeys(lines: seq<string>)
    requires ParseEnvLines(lines).Ok?
    ensures forall i :: 0 <= i < |lines| ==> Key(lines[i]) in ParseEnvLines(lines).value
  {
    if lines != [] {
      var n := |lines| - 1;
      var init := lines[..n];
      ParseEnvStep(lines);
      ParseEnvKeys(init);
      assert forall i :: 0 <= i < n ==> init[i] == lines[i];
    }
  }

  /** Each key of the parsed map holds the value of the LAST line that has
      that key. */
  lemma {:induction false} ParseEnvEntries(lines: seq<string>)
    requires ParseEnvLines(lines).Ok?
    ensures var m := ParseEnvLines(lines).value;
      forall k :: k in m ==> exists i :: LastWithKey(lines, i, k) && m[k] == Value(lines[i])
  {
    if lines != [] {
      var n := |lines| - 1;
      var init := lines[..n];
      assert lines == init + [lines[n]];
      ParseEnvStep(lines);
      ParseEnvEntries(init);
      var m0 := ParseEnvLines(init).value;
      var m := ParseEnvLines(lines).value;
      forall k | k in m
        ensures exists i :: LastWithKey(lines, i, k) && m[k] == Value(lines[i])
      {
        if k != Key(lines[n]) {
          var i :| LastWithKey(init, i, k) && m0[k] == Value(init[i]);
          LastWithKeyExtend(init, lines[n], i, k);
          assert m[k] == Value(lines[i]);
        } else {
          assert LastWithKey(lines, n, k);
        }
      }
    }
  }

  /** The environment of a `KEY=VALUE` dump. */
  function ParseEnv(output: string): (r: Result<map<string, string>, Error>)
    ensures var lines := NonEmptyLines(output);
      r.Ok? <==> forall i :: 0 <= i < |lines| ==> '=' in lines[i]
    ensures var lines := NonEmptyLines(output);
      r.Err? ==> exists i :: 0 <= i < |lines| && r.error == NoSeparator(lines[i]) && '=' !in lines[i]
                             && forall j :: 0 <= j < i ==> '=' in lines[j]
  {
    ParseEnvLines(NonEmptyLines(output))
  }

  /** A value keeps every `=` after the first one. */
  lemma ValueKeepsEquals(key: string, value: string)
    requires '=' !in key
    requires forall i :: 0 <= i < |key| ==> !IsLineBreak(key[i])
    requires forall i :: 0 <= i < |value| ==> !IsLineBreak(value[i])
    ensures ParseEnv(key + "=" + value) == Ok(map[key := value])
  {
    var line := key + "=" + value;
    assert IsField(line, IsLineBreak) by {
      forall i | 0 <= i < |line| ensures !IsLineBreak(line[i]) {
        if i < |key| {
          assert line[i] == key[i];
        } else if i > |key| {
          assert line[i] == value[i - |key| - 1];
        }
      }
    }
    FieldsOfJoin([line], '\n', IsLineBreak);
    assert JoinWith([line], '\n') == line;
    SplitFirstOfPair(key, '=', value);
    assert ParseEnvLines([line]) == Ok(map[][key := value]) by {
      assert [line][..0] == [];
    }
  }

  /** A later line for the same key wins. */
  lemma LaterLineWins(key: string, first: string, second: string)
    requires '=' !in key
    ensures ParseEnvLines([key + "=" + first, key + "=" + second]) == Ok(map[key := second])
  {
    var l1, l2 := key + "=" + first, key + "=" + second;
    var ls := [l1, l2];
    SplitFirstOfPair(key, '=', first);
    SplitFirstOfPair(key, '=', second);
    assert ls[..1] == [l1];
    assert [l1][..0] == [];
    assert ParseEnvLines([l1]) == Ok(map[][key := first]);
    assert map[][key := first][key := second] == map[key := second];
  }

  /** `getlayerdir`: the `LAYERDIR_<layer>` entry of the dump with the
      double quotes around it removed. */
  function GetLayerDir(output: string, layer: string): (r: Result<string, Error>)
    ensures ParseEnv(output).Err? ==> r == Err(ParseEnv(output).error)
    ensures ParseEnv(output).Ok? ==>
      (r.Ok? <==> "LAYERDIR_" + layer in ParseEnv(output).value)
    ensures r.Err? && ParseEnv(output).Ok? ==> r.error == MissingKey("LAYERDIR_" + layer)
    ensures r.Ok? ==> r.value == [] || (r.value[0] != '"' && r.value[|r.value| - 1] != '"')
    ensures r.Ok? ==> r.value == Strip(ParseEnv(output).value["LAYERDIR_" + layer], '"')
  {
    match ParseEnv(output)
    case Err(e) => Err(e)
    case Ok(env) =>
      var key := "LAYERDIR_" + layer;
      if key !in env then Err(MissingKey(key)) else Ok(Strip(env[key], '"'))
  }

  /** The layer directory is the value of the last `LAYERDIR_<layer>` line
      of the dump, with the quotes around it stripped. */
  lemma LayerDirOfLastLine(output: string, layer: string)
    requires GetLayerDir(output, layer).Ok?
    ensures var lines, key := NonEmptyLines(output), "LAYERDIR_" + layer;
      exists i :: LastWithKey(lines, i, key) &&
        GetLayerDir(output, layer).value == Strip(Value(lines[i]), '"')
  {
    var lines := NonEmptyLines(output);
    ParseEnvEntries(lines);
  }

  /** The shape bitbake prints, `LAYERDIR_core="/path"`, gives the path. */
  lemma LayerDirOfQuoted(layer: string, dir: string)
    requires '=' !in layer
    requires forall i :: 0 <= i < |layer| ==> !IsLineBreak(layer[i])
    requires forall i :: 0 <= i < |dir| ==> !IsLineBreak(dir[i])
    requires dir == [] || (dir[0] != '"' && dir[|dir| - 1] != '"')
    ensures GetLayerDir("LAYERDIR_" + layer + "=\"" + dir + "\"", layer) == Ok(dir)
  {
    var key := "LAYERDIR_" + layer;
    var value := "\"" + dir + "\"";
    assert '=' !in key by {
      assert forall i :: 0 <= i < |key| && i >= 9 ==> key[i] == layer[i - 9];
      forall i | 0 <= i < |key| ensures key[i] != '=' {
        if i >= 9 { assert layer[i - 9] in layer; }
      }
    }
    assert forall i :: 0 <= i < |value| ==> !IsLineBreak(value[i]) by {
      forall i | 0 <= i < |value| ensures !IsLineBreak(value[i]) {
        if 0 < i < |value| - 1 { assert value[i] == dir[i - 1]; }
      }
    }
    assert "LAYERDIR_" + layer + "=\"" + dir + "\"" == key + "=" + value;
    ValueKeepsEquals(key, value);
    StripAround("\"", dir, "\"", '"');
  }

  // ---- backups ---------------------------------------------------------

  function BackupPath(path: string): (r: string)
    ensures |r| > |path| && r[..|path|] == path
  {
    path + ".ci-backup"
  }

  /** `shutil.copy2(src, dst)` on contents: `dst` becomes a copy of `src`. */
  function CopyFile(files: map<string, string>, src: string, dst: string): (r: Result<map<string, string>, Error>)
    ensures r.Err? <==> src !in files
    ensures r.Err? ==> r.error == FileNotFound(src)
    ensures r.Ok? ==> r.value.Keys == files.Keys + {dst} && r.value[dst] == files[src]
    ensures r.Ok? ==> forall p :: p in files && p != dst ==> r.value[p] == files[p]
  {
    if src !in files then Err(FileNotFound(src)) else Ok(files[dst := files[src]])
  }

  /** `shutil.move(src, dst)` on contents: `dst` takes over what `src` held
      and `src` is gone. */
  function MoveFile(files: map<string, string>, src: string, dst: string): (r: Result<map<string, string>, Error>)
    ensures r.Err? <==> src !in files
    ensures r.Err? ==> r.error == FileNotFound(src)
    ensures r.Ok? ==> r.value.Keys == files.Keys - {src} + {dst} && r.value[dst] == files[src]
    ensures r.Ok? && src != dst ==> src !in r.value
    ensures r.Ok? ==> forall p :: p in files && p != dst && p != src ==> r.value[p] == files[p]
  {
    if src !in files then Err(FileNotFound(src)) else Ok((files - {src})[dst := files[src]])
  }

  /** `backupfile` then `restorefile`: the file is back as it was and no
      backup is left; nothing else changes. */
  lemma BackupThenRestore(files: map<string, string>, path: string)
    requires path in files
    ensures var b := CopyFile(files, path, BackupPath(path));
      b.Ok? && MoveFile(b.value, BackupPath(path), path) == Ok(files - {BackupPath(path)})
  {
    var bak := BackupPath(path);
    assert bak != path;
    var b := CopyFile(files, path, bak).value;
    var r := MoveFile(b, bak, path).value;
    assert r == files - {bak};
  }

  /** `backupmove` takes the file away until `restorefile` brings it back
      unchanged. */
  lemma MoveThenRestore(files: map<string, string>, path: string)
    requires path in files
    ensures var b := MoveFile(files, path, BackupPath(path));
      && b.Ok? && path !in b.value
      && MoveFile(b.value, BackupPath(path), path) == Ok(files - {BackupPath(path)})
  {
    var bak := BackupPath(path);
    assert bak != path;
    var b := MoveFile(files, path, bak).value;
    var r := MoveFile(b, bak, path).value;
    assert r == files - {bak};
  }

  // ---- the working tree ------------------------------------------------

  class Workspace {
    var files: map<string, string>

    constructor (files: map<string, string>)
      ensures this.files == files
    {
      this.files := files;
    }

    /** One `f.write(line + '\n')` on a file that so far holds `done`. */
    method WriteLine(path: string, ghost done: seq<string>, line: string)
      requires path in files && files[path] == Unlines(done)
      modifies this
      ensures files == old(files)[path := Unlines(done + [line])]
    {
      var before := files[path];
      files := files[path := before + (line + "\n")];
      UnlinesSnoc(done, line);
      assert before + (line + "\n") == Unlines(done + [line]);
    }

    /** Three writes into an emptied file. */
    method WriteThreeLines(path: string, a: string, b: string, c: string)
      requires path in files && files[path] == ""
      modifies this
      ensures files == old(files)[path := Unlines([a, b, c])]
    {
      WriteLine(path, [], a);
      WriteLine(path, [a], b);
      assert [a] + [b] == [a, b];
      WriteLine(path, [a, b], c);
      assert [a, b] + [c] == [a, b, c];
    }

    /** The writes of lines 22-30 for any five lines, the first three
        sharing one switch. */
    method WriteSwitched(path: string, a: string, b: string, c: string, d: string, e: string,
                         p: bool, q: bool, r: bool)
      modifies this
      ensures files == old(files)[path :=
        Unlines((if p then [a, b, c] else []) + (if q then [d] else []) + (if r then [e] else []))]
    {
      files := files[path := ""];
      ghost var first := if p then [a, b, c] else [];
      if p {
        WriteThreeLines(path, a, b, c);
      }
      assert files == old(files)[path := Unlines(first)];
      ghost var second := first + (if q then [d] else []);
      if q {
        WriteLine(path, first, d);
      } else {
        assert second == first;
      }
      assert files == old(files)[path := Unlines(second)];
      ghost var third := second + (if r then [e] else []);
      if r {
        WriteLine(path, second, e);
      } else {
        assert third == second;
      }
    }

    /** Lines 22-30: `ci_build.conf` is rewritten with the enabled lines. */
    method WriteCiBuild(path: string, compatArch: bool, cross: bool, debsrcCache: bool)
      modifies this
      ensures files == old(files)[path := CiBuildConf(compatArch, cross, debsrcCache)]
    {
      var c := CompatLines;
      WriteSwitched(path, c[0], c[1], c[2], CrossLine, DebSrcLine, compatArch, cross, debsrcCache);
      assert c == [c[0], c[1], c[2]];
    }

    /** Lines 32-37: the include is appended unless a line of `local.conf`
        already has it; a missing `local.conf` fails. */
    method AddInclude(path: string) returns (r: Outcome)
      modifies this
      ensures path in old(files) ==> r == Done && files == old(files)[path := IncludeCiBuild(old(files)[path])]
      ensures path !in old(files) ==> r == Failed(FileNotFound(path)) && files == old(files)
    {
      if path !in files {
        return Failed(FileNotFound(path));
      }
      var found := FindIncludeLine(files[path]);
      if !found {
        files := files[path := files[path] + "\n" + IncludeDirective];
      }
      r := Done;
    }

    /** `confprepare`: `ci_build.conf` first, then `local.conf`; when
        `local.conf` is missing, `ci_build.conf` has been written already. */
    method ConfPrepare(buildDir: string, compatArch: bool, cross: bool, debsrcCache: bool)
      returns (r: Outcome)
      modifies this
      ensures var ci, local := CiBuildPath(buildDir), LocalConfPath(buildDir);
        var written := old(files)[ci := CiBuildConf(compatArch, cross, debsrcCache)];
        if local in old(files) then
          r == Done && files == written[local := IncludeCiBuild(old(files)[local])]
        else
          r == Failed(FileNotFound(local)) && files == written
    {
      ConfPathsDiffer(buildDir);
      WriteCiBuild(CiBuildPath(buildDir), compatArch, cross, debsrcCache);
      r := AddInclude(LocalConfPath(buildDir));
    }

    /** `confcleanup`: `ci_build.conf` is left empty. */
    method ConfCleanup(buildDir: string)
      modifies this
      ensures files == old(files)[CiBuildPath(buildDir) := ""]
    {
      files := files[CiBuildPath(buildDir) := ""];
    }

    method BackupFile(path: string) returns (r: Outcome)
      modifies this
      ensures var c := CopyFile(old(files), path, BackupPath(path));
        if c.Ok? then r == Done && files == c.value else r == Failed(c.error) && files == old(files)
    {
      if path !in files {
        return Failed(FileNotFound(path));
      }
      files := files[BackupPath(path) := files[path]];
      r := Done;
    }

    method BackupMove(path: string) returns (r: Outcome)
      modifies this
      ensures var m := MoveFile(old(files), path, BackupPath(path));
        if m.Ok? then r == Done && files == m.value else r == Failed(m.error) && files == old(files)
    {
      if path !in files {
        return Failed(FileNotFound(path));
      }
      var content := files[path];
      files := (files - {path})[BackupPath(path) := content];
      r := Done;
    }

    method RestoreFile(path: string) returns (r: Outcome)
      modifies this
      ensures var m := MoveFile(old(files), BackupPath(path), path);
        if m.Ok? then r == Done && files == m.value else r == Failed(m.error) && files == old(files)
    {
      var bak := BackupPath(path);
      if bak !in files {
        return Failed(FileNotFound(bak));
      }
      var content := files[bak];
      files := (files - {bak})[path := content];
      r := Done;
    }
  }
}
