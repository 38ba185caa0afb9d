/** The three regular-expression rewrites that rootfs-u-boot applies to the
    `script_prepend` source parameter before writing it between double
    quotes into `etc/default/u-boot-script`. Each `re.sub` is a left-to-right
    scan that never looks at text an earlier match consumed; it is written
    here as a recursive function over the remaining suffix. */
module ScriptPrepend {
  import opened Text

  // ---- rewrite (i): `$\{NAME\}` becomes `${NAME}` ----------------------

  /** `s` begins with `$\{`, a non-empty run of non-backslash characters
      ending at index `e`, then `\}`: the only shape `\$\\{([^\\]+)\\}`
      matches at the start of `s`, since the greedy class stops at the first
      backslash and backing off would leave a non-backslash where `\` is
      needed. */
  predicate TokenAt(s: string, e: int)
  {
    && |s| >= 3 && s[0] == '$' && s[1] == '\\' && s[2] == '{'
    && 3 < e && e + 1 < |s| && s[e] == '\\' && s[e + 1] == '}'
    && forall j :: 3 <= j < e ==> s[j] != '\\'
  }

  /** Where the token at the start of `s` closes, if one starts there. */
  function TokenEnd(s: string): (r: Option<nat>)
    ensures r.Some? ==> TokenAt(s, r.value)
    ensures forall e :: TokenAt(s, e) ==> r == Some(e)
  {
    if |s| >= 3 && s[0] == '$' && s[1] == '\\' && s[2] == '{' then
      var e := 3 + IndexOf(s[3..], '\\');
      if e > 3 && e + 1 < |s| && s[e + 1] == '}' then Some(e) else None
    else None
  }

  /** `re.sub(r'\$\\{([^\\]+)\\}', r'${\1}', s)`. */
  function UnescapeVars(s: string): (r: string)
    ensures |r| <= |s|
    decreases |s|
  {
    if s == [] then []
    else match TokenEnd(s)
      case Some(e) => "${" + s[3..e] + "}" + UnescapeVars(s[e + 2..])
      case None => [s[0]] + UnescapeVars(s[1..])
  }

  /** A `$\{` that opens no match (no closing `\}`, an empty name, or a
      backslash inside the name) is kept as it is, and the scan goes on
      right after it. */
  lemma UnescapeVarsNoMatch(x: string)
    requires TokenEnd("$\\{" + x).None?
    ensures UnescapeVars("$\\{" + x) == "$\\{" + UnescapeVars(x)
  {
    var s := "$\\{" + x;
    assert s[1..] == "\\{" + x;
    assert s[1..][1..] == "{" + x;
    assert s[1..][1..][1..] == x;
    calc {
      UnescapeVars(s);
      [s[0]] + UnescapeVars(s[1..]);
      [s[0]] + ([s[1]] + UnescapeVars(s[1..][1..]));
      [s[0]] + ([s[1]] + ([s[2]] + UnescapeVars(x)));
      "$\\{" + UnescapeVars(x);
    }
  }

  /** An empty name does not make a token: `$\{\}` is written as it is. */
  lemma EmptyNameKept()
    ensures UnescapeVars("$\\{\\}") == "$\\{\\}"
  {
    var x := "\\}";
    assert "$\\{" + x == "$\\{\\}";
    assert TokenEnd("$\\{" + x).None?;
    UnescapeVarsNoMatch(x);
    assert x[1..] == "}";
    assert UnescapeVars(x) == x by {
      assert UnescapeVars(x[1..][1..]) == [];
    }
  }

  /** Without the closing `\}` the opening is kept: `$\{a` is unchanged. */
  lemma UnterminatedKept()
    ensures UnescapeVars("$\\{a") == "$\\{a"
  {
    var x := "a";
    assert "$\\{" + x == "$\\{a";
    assert TokenEnd("$\\{" + x).None?;
    UnescapeVarsNoMatch(x);
    assert UnescapeVars(x) == x by {
      assert UnescapeVars(x[1..]) == [];
    }
  }

  /** Text without any `$\{` comes through rewrite (i) unchanged. */
  lemma {:induction false} UnescapeVarsWithoutToken(s: string)
    requires !Contains(s, "$\\{")
    ensures UnescapeVars(s) == s
  {
    if s != [] {
      assert !IsAt(s, "$\\{", 0);
      assert |s| >= 3 ==> s[..3] != "$\\{";
      assert TokenEnd(s).None?;
      forall i | 0 <= i <= |s[1..]| - 3 && IsAt(s[1..], "$\\{", i)
        ensures false
      {
        assert s[1..][i..i + 3] == s[i + 1..i + 4];
        assert IsAt(s, "$\\{", i + 1);
      }
      UnescapeVarsWithoutToken(s[1..]);
    }
  }

  /** A token with a non-empty, backslash-free name becomes `${NAME}`, and
      scanning resumes right after its closing `\}`. */
  lemma UnescapeVarsToken(name: string, rest: string)
    requires name != [] && '\\' !in name
    ensures UnescapeVars("$\\{" + name + "\\}" + rest) == "${" + name + "}" + UnescapeVars(rest)
  {
    var s := "$\\{" + name + "\\}" + rest;
    var e := 3 + |name|;
    assert s[3..e] == name;
    assert s[e] == '\\' && s[e + 1] == '}';
    assert TokenAt(s, e);
    assert s[e + 2..] == rest;
  }

  /** Text ahead of a token cannot reach into it: a match that starts in
      `p` closes inside `p`, since the token opens with `$\{` and not `\}`. */
  lemma TokenEndBeforeToken(p: string, u: string)
    requires p != [] && |u| >= 3 && u[0] == '$' && u[1] == '\\' && u[2] == '{'
    ensures TokenEnd(p + u) == TokenEnd(p)
  {
    var s := p + u;
    assert forall j :: 0 <= j < |p| ==> s[j] == p[j];
    if TokenEnd(p).Some? {
      assert TokenAt(s, TokenEnd(p).value);
    }
    if TokenEnd(s).Some? {
      var e := TokenEnd(s).value;
      assert s[|p|] == '$' && s[|p| + 1] == '\\' && s[|p| + 2] == '{';
      assert |p| >= 2 ==> e <= |p| + 1;
      assert e + 1 < |p|;
      assert TokenAt(p, e);
    }
  }

  /** How much of `s` one step of rewrite (i) consumes: a whole token, or
      one character. */
  function Consumed(s: string): (n: nat)
    requires s != []
    ensures 0 < n <= |s|
  {
    match TokenEnd(s)
    case Some(e) => e + 2
    case None => 1
  }

  /** What that step emits: `${NAME}` for a token, else the character. */
  function Emitted(s: string): string
    requires s != []
  {
    match TokenEnd(s)
    case Some(e) => "${" + s[3..e] + "}"
    case None => [s[0]]
  }

  lemma ScanStep(s: string)
    requires s != []
    ensures UnescapeVars(s) == Emitted(s) + UnescapeVars(s[Consumed(s)..])
  {
  }

  /** A step taken in `p` is the same step in `p + u`. */
  lemma ScanStepBeforeToken(p: string, u: string)
    requires p != [] && |u| >= 3 && u[0] == '$' && u[1] == '\\' && u[2] == '{'
    ensures Consumed(p + u) == Consumed(p) && Emitted(p + u) == Emitted(p)
    ensures (p + u)[Consumed(p)..] == p[Consumed(p)..] + u
  {
    TokenEndBeforeToken(p, u);
    var s := p + u;
    if TokenEnd(p).Some? {
      var e := TokenEnd(p).value;
      assert s[3..e] == p[3..e];
    }
  }

  /** Rewrite (i) treats the text before a `$\{` on its own: no match
      crosses into the part that starts there. */
  lemma {:induction false} UnescapeVarsSplit(p: string, u: string)
    requires |u| >= 3 && u[0] == '$' && u[1] == '\\' && u[2] == '{'
    ensures UnescapeVars(p + u) == UnescapeVars(p) + UnescapeVars(u)
    decreases |p|
  {
    if p == [] {
      assert UnescapeVars(p) == [];
      assert p + u == u;
    } else {
      var q := p[Consumed(p)..];
      assert UnescapeVars(p + u) == Emitted(p) + UnescapeVars(q + u) by {
        ScanStep(p + u);
        ScanStepBeforeToken(p, u);
      }
      assert UnescapeVars(p) == Emitted(p) + UnescapeVars(q) by {
        ScanStep(p);
      }
      UnescapeVarsSplit(q, u);
      ConcatAssoc(Emitted(p), UnescapeVars(q), UnescapeVars(u));
    }
  }

  lemma ConcatAssoc(a: string, b: string, c: string)
    ensures a + (b + c) == (a + b) + c
  {
  }

  /** Rewrite (i) wherever the token stands: the text before it is
      rewritten on its own, the token becomes `${NAME}`, and the scan goes
      on after its closing `\}`. */
  lemma UnescapeVarsAfter(p: string, name: string, rest: string)
    requires name != [] && '\\' !in name
    ensures UnescapeVars(p + ("$\\{" + name + "\\}" + rest)) ==
      UnescapeVars(p) + ("${" + name + "}" + UnescapeVars(rest))
  {
    var u := "$\\{" + name + "\\}" + rest;
    assert u[0] == '$' && u[1] == '\\' && u[2] == '{';
    UnescapeVarsSplit(p, u);
    UnescapeVarsToken(name, rest);
  }

  // ---- rewrites (ii) and (iii): escape an unescaped `c` ------------------

  /** `re.sub(r'([^\\])C', r'\1\\C', s)` for the character `c`: wherever a
      non-backslash is followed by `c`, a backslash goes between them and
      the scan resumes after that `c`. */
  function EscapeUnescaped(s: string, c: char): (r: string)
    ensures |s| <= |r|
    decreases |s|
  {
    if |s| < 2 then s
    else if s[0] != '\\' && s[1] == c then [s[0], '\\', c] + EscapeUnescaped(s[2..], c)
    else [s[0]] + EscapeUnescaped(s[1..], c)
  }

  /** Position by position, which characters of `s` get a backslash put in
      front of them. `free` says that the character just before `s[0]`
      exists, is not a backslash and was not consumed by an earlier match. */
  function MarksFrom(s: string, c: char, free: bool): (m: seq<bool>)
    ensures |m| == |s|
    decreases |s|
  {
    if s == [] then []
    else
      var hit := free && s[0] == c;
      [hit] + MarksFrom(s[1..], c, !hit && s[0] != '\\')
  }

  function Marks(s: string, c: char): (m: seq<bool>)
    ensures |m| == |s|
  {
    MarksFrom(s, c, false)
  }

  /** `s` with a backslash in front of every marked character. */
  function Insert(s: string, m: seq<bool>): string
    requires |m| == |s|
  {
    if s == [] then []
    else (if m[0] then ['\\', s[0]] else [s[0]]) + Insert(s[1..], m[1..])
  }

  /** Removes, guided by the marks, the backslash in front of every marked
      character. */
  function Erase(r: string, m: seq<bool>): string
    decreases |r|
  {
    if m == [] || r == [] then []
    else if m[0] && |r| >= 2 then [r[1]] + Erase(r[2..], m[1..])
    else [r[0]] + Erase(r[1..], m[1..])
  }

  /** Removing the inserted backslashes gives back the original text. */
  lemma {:induction false} EraseInsert(s: string, m: seq<bool>)
    requires |m| == |s|
    ensures Erase(Insert(s, m), m) == s
  {
    if s != [] {
      var rest := Insert(s[1..], m[1..]);
      var r := Insert(s, m);
      if m[0] {
        assert r == ['\\', s[0]] + rest;
        assert r[2..] == rest;
      } else {
        assert r == [s[0]] + rest;
        assert r[1..] == rest;
      }
      EraseInsert(s[1..], m[1..]);
    }
  }

  /** A character that is not `c` is never marked, whatever came before. */
  lemma MarksFreeIrrelevant(s: string, c: char)
    requires s != [] && s[0] != c
    ensures MarksFrom(s, c, true) == MarksFrom(s, c, false)
  {
  }

  /** The scan only inserts backslashes, exactly in front of the marked
      characters. */
  lemma {:induction false} EscapeIsInsert(s: string, c: char)
    ensures EscapeUnescaped(s, c) == Insert(s, Marks(s, c))
    decreases |s|
  {
    if |s| < 2 {
    } else if s[0] != '\\' && s[1] == c {
      var m := Marks(s, c);
      assert m == [false] + MarksFrom(s[1..], c, true);
      assert MarksFrom(s[1..], c, true) == [true] + Marks(s[2..], c);
      assert s[1..][1..] == s[2..];
      EscapeIsInsert(s[2..], c);
    } else {
      if s[0] != '\\' {
        MarksFreeIrrelevant(s[1..], c);
      }
      EscapeIsInsert(s[1..], c);
    }
  }

  lemma {:induction false} MarksFromAt(s: string, c: char, free: bool, j: nat)
    requires j < |s|
    ensures MarksFrom(s, c, free)[j] ==
      (s[j] == c && if j == 0 then free else s[j - 1] != '\\' && !MarksFrom(s, c, free)[j - 1])
  {
    if j > 0 {
      var hit := free && s[0] == c;
      var free' := !hit && s[0] != '\\';
      assert MarksFrom(s, c, free) == [hit] + MarksFrom(s[1..], c, free');
      MarksFromAt(s[1..], c, free', j - 1);
    }
  }

  /** Which characters get escaped: a `c` at index `j` is escaped exactly
      when `j > 0`, the character before it is not a backslash, and that
      character was not itself an escaped `c` (consumed by the previous
      match). Hence an existing `\c` is left alone, a `c` at index 0 is never
      escaped, and in a run `cc` only the first one is. */
  lemma MarksAt(s: string, c: char, j: nat)
    requires j < |s|
    ensures Marks(s, c)[j] <==>
      s[j] == c && j > 0 && s[j - 1] != '\\' && !Marks(s, c)[j - 1]
  {
    MarksFromAt(s, c, false, j);
  }

  /** Rewrites (ii) and (iii) lose nothing: deleting the backslashes they
      inserted restores the input. */
  lemma EscapeRoundTrip(s: string, c: char)
    ensures Erase(EscapeUnescaped(s, c), Marks(s, c)) == s
  {
    EscapeIsInsert(s, c);
    EraseInsert(s, Marks(s, c));
  }

  /** Text without `c` comes through unchanged. */
  lemma {:induction false} EscapeWithoutChar(s: string, c: char)
    requires c !in s
    ensures EscapeUnescaped(s, c) == s
    decreases |s|
  {
    if |s| >= 2 {
      assert s[1] != c;
      assert c !in s[1..];
      EscapeWithoutChar(s[1..], c);
    }
  }

  /** Of two adjacent quotes after a letter only the first is escaped,
      because its match consumed the second one's left neighbour. */
  lemma AdjacentQuotes()
    ensures EscapeUnescaped("a\"\"", '"') == "a\\\"\""
  {
    var s := "a\"\"";
    assert s[2..] == "\"";
  }

  // ---- the three rewrites in sequence ----------------------------------

  /** `script_prepend` as written into the configuration file. */
  function EscapeScript(s: string): string
  {
    EscapeUnescaped(EscapeUnescaped(UnescapeVars(s), '"'), '$')
  }

  /** A script with no `"` and no `$` is written as it is: none of the three
      rewrites has anything to match. */
  lemma EscapeScriptPlain(s: string)
    requires '"' !in s && '$' !in s
    ensures EscapeScript(s) == s
  {
    assert !Contains(s, "$\\{") by {
      forall i | 0 <= i <= |s| - 3 ensures !IsAt(s, "$\\{", i) {
        assert s[i] in s;
      }
    }
    UnescapeVarsWithoutToken(s);
    EscapeWithoutChar(s, '"');
    EscapeWithoutChar(s, '$');
  }

  /** A wic-escaped variable reference ends up as `\${NAME}`: rewrite (i)
      removes the backslashes that protected it from wic, and rewrite (iii)
      escapes its dollar again, so the shell that reads the file leaves
      `${NAME}` for U-Boot to expand. */
  lemma EscapedVariable(name: string)
    requires name != [] && '\\' !in name && '"' !in name && '$' !in name
    ensures EscapeScript("x$\\{" + name + "\\}") == "x\\${" + name + "}"
  {
    var u := "x${" + name + "}";
    UnescapeAfterLetter(name);
    assert '"' !in u;
    EscapeWithoutChar(u, '"');
    EscapeDollarAfterLetter(name);
  }

  lemma UnescapeAfterLetter(name: string)
    requires name != [] && '\\' !in name
    ensures UnescapeVars("x$\\{" + name + "\\}") == "x${" + name + "}"
  {
    var token := "$\\{" + name + "\\}";
    var s := "x$\\{" + name + "\\}";
    assert s[0] == 'x';
    assert TokenEnd(s).None?;
    assert s[1..] == token + "";
    UnescapeVarsToken(name, "");
  }

  lemma EscapeDollarAfterLetter(name: string)
    requires '$' !in name
    ensures EscapeUnescaped("x${" + name + "}", '$') == "x\\${" + name + "}"
  {
    var u := "x${" + name + "}";
    var tail := "{" + name + "}";
    assert u[0] == 'x' && u[1] == '$';
    assert u[2..] == tail;
    assert '$' !in tail;
    EscapeWithoutChar(tail, '$');
  }
}
