/** Character-sequence operations that the Python code gets from its string
    type: `str.find`, `in`, `" ".join`, `%d`, `int()`, `str.replace`,
    `str.strip` and `str.split(sep, 1)`, written out over `seq<char>`. */
module Text {

  datatype Option<+T> = None | Some(value: T)

  datatype Result<+T, +E> = Ok(value: T) | Err(error: E)

  /** Index of the first `c` in `s`, or `|s|` when `s` has none. */
  function IndexOf(s: string, c: char): (k: nat)
    ensures k <= |s|
    ensures forall i :: 0 <= i < k ==> s[i] != c
    ensures k < |s| ==> s[k] == c
  {
    if s == [] then 0
    else if s[0] == c then 0
    else 1 + IndexOf(s[1..], c)
  }

  /** `t` occurs in `s` starting at index `i`. */
  predicate IsAt(s: string, t: string, i: int)
  {
    0 <= i && i + |t| <= |s| && s[i..i + |t|] == t
  }

  /** Python's `t in s` for strings. */
  predicate Contains(s: string, t: string)
  {
    exists i :: 0 <= i <= |s| - |t| && IsAt(s, t, i)
  }

  /** Index of the first character of `s` that `sep` holds of, or `|s|`. */
  function IndexWhere(s: string, sep: char -> bool): (k: nat)
    ensures k <= |s|
    ensures forall i :: 0 <= i < k ==> !sep(s[i])
    ensures k < |s| ==> sep(s[k])
  {
    if s == [] then 0
    else if sep(s[0]) then 0
    else 1 + IndexWhere(s[1..], sep)
  }

  /** Splits `s` at every separator character and drops the empty pieces. */
  function Fields(s: string, sep: char -> bool): seq<string>
    decreases |s|
  {
    if s == [] then []
    else if sep(s[0]) then Fields(s[1..], sep)
    else
      var k := IndexWhere(s, sep);
      [s[..k]] + (if k == |s| then [] else Fields(s[k + 1..], sep))
  }

  /** Every piece is non-empty and holds no separator. */
  lemma {:induction false} FieldsAreFields(s: string, sep: char -> bool)
    ensures forall i :: 0 <= i < |Fields(s, sep)| ==> IsField(Fields(s, sep)[i], sep)
    decreases |s|
  {
    if s == [] {
    } else if sep(s[0]) {
      FieldsAreFields(s[1..], sep);
    } else {
      var k := IndexWhere(s, sep);
      var w := s[..k];
      assert forall j :: 0 <= j < |w| ==> w[j] == s[j];
      assert IsField(w, sep);
      if k < |s| {
        FieldsAreFields(s[k + 1..], sep);
      }
    }
  }

  /** The pieces joined with `c` between them (Python's `c.join(ws)`). */
  function JoinWith(ws: seq<string>, c: char): string
  {
    if ws == [] then ""
    else if |ws| == 1 then ws[0]
    else ws[0] + [c] + JoinWith(ws[1..], c)
  }

  /** A piece that survives joining and splitting unchanged. */
  predicate IsField(w: string, sep: char -> bool)
  {
    w != [] && forall i :: 0 <= i < |w| ==> !sep(w[i])
  }

  /** Joining non-empty pieces that hold no separator, with a separator
      between them, loses nothing: splitting gives the same pieces back, in
      order. */
  lemma {:induction false} FieldsOfJoin(ws: seq<string>, c: char, sep: char -> bool)
    requires sep(c)
    requires forall i :: 0 <= i < |ws| ==> IsField(ws[i], sep)
    ensures Fields(JoinWith(ws, c), sep) == ws
  {
    if ws == [] {
    } else if |ws| == 1 {
      var s := ws[0];
      assert IndexWhere(s, sep) == |s|;
      assert s[..|s|] == s;
    } else {
      var w := ws[0];
      var rest := JoinWith(ws[1..], c);
      var s := w + [c] + rest;
      assert s == JoinWith(ws, c);
      assert s[0] == w[0] && !sep(s[0]);
      assert forall i :: 0 <= i < |w| ==> s[i] == w[i];
      assert s[|w|] == c;
      assert IndexWhere(s, sep) == |w|;
      assert s[..|w|] == w;
      assert s[|w| + 1..] == rest;
      FieldsOfJoin(ws[1..], c, sep);
    }
  }

  /** The pieces with the empty ones left out. */
  function DropEmpty(ws: seq<string>): (r: seq<string>)
    ensures |r| <= |ws|
    ensures forall i :: 0 <= i < |r| ==> r[i] != []
  {
    if ws == [] then []
    else if ws[0] == [] then DropEmpty(ws[1..])
    else [ws[0]] + DropEmpty(ws[1..])
  }

  /** Splitting a piece with no separator in it gives the piece, or nothing
      when it is empty. */
  lemma {:induction false} FieldsOfPiece(w: string, sep: char -> bool)
    requires forall i :: 0 <= i < |w| ==> !sep(w[i])
    ensures Fields(w, sep) == DropEmpty([w])
  {
    if w != [] {
      assert IndexWhere(w, sep) == |w|;
      assert w[..|w|] == w;
    }
  }

  /** A separator after a piece with no separator in it ends that piece. */
  lemma {:induction false} FieldsAfterPiece(w: string, c: char, rest: string, sep: char -> bool)
    requires sep(c)
    requires forall i :: 0 <= i < |w| ==> !sep(w[i])
    ensures Fields(w + [c] + rest, sep) == DropEmpty([w]) + Fields(rest, sep)
  {
    var s := w + [c] + rest;
    if w == [] {
      assert s[0] == c && s[1..] == rest;
    } else {
      assert s[0] == w[0];
      assert forall i :: 0 <= i < |w| ==> s[i] == w[i];
      assert s[|w|] == c;
      assert IndexWhere(s, sep) == |w|;
      assert s[..|w|] == w;
      assert s[|w| + 1..] == rest;
    }
  }

  /** Joining pieces that hold no separator, some of them possibly empty,
      and splitting again gives the non-empty pieces back, in order: empty
      pieces are skipped and nothing else is lost. */
  lemma {:induction false} FieldsOfJoinDropsEmpty(ws: seq<string>, c: char, sep: char -> bool)
    requires sep(c)
    requires forall i, j :: 0 <= i < |ws| && 0 <= j < |ws[i]| ==> !sep(ws[i][j])
    ensures Fields(JoinWith(ws, c), sep) == DropEmpty(ws)
  {
    if ws == [] {
    } else if |ws| == 1 {
      FieldsOfPiece(ws[0], sep);
    } else {
      var w, tail := ws[0], ws[1..];
      assert JoinWith(ws, c) == w + [c] + JoinWith(tail, c);
      assert forall j :: 0 <= j < |w| ==> !sep(w[j]) by {
        forall j | 0 <= j < |w| ensures !sep(w[j]) { assert w == ws[0]; }
      }
      assert forall i, j :: 0 <= i < |tail| && 0 <= j < |tail[i]| ==> !sep(tail[i][j]) by {
        forall i, j | 0 <= i < |tail| && 0 <= j < |tail[i]| ensures !sep(tail[i][j]) {
          assert tail[i] == ws[i + 1];
        }
      }
      FieldsAfterPiece(w, c, JoinWith(tail, c), sep);
      FieldsOfJoinDropsEmpty(tail, c, sep);
      assert DropEmpty([w]) == (if w == [] then [] else [w]) by {
        assert [w][1..] == [];
      }
    }
  }

  predicate IsSpace(c: char)
  {
    c == ' '
  }

  /** Python's `" ".join(ws)`. */
  function JoinWords(ws: seq<string>): string
  {
    JoinWith(ws, ' ')
  }

  /** How a command line is read back into its words: split at spaces,
      dropping empty pieces. */
  function SplitWords(s: string): seq<string>
  {
    Fields(s, IsSpace)
  }

  /** A word that survives joining and splitting unchanged. */
  predicate IsWord(w: string)
  {
    IsField(w, IsSpace)
  }

  /** The text of a file written one `line + "\n"` at a time. */
  function Unlines(ls: seq<string>): string
  {
    if ls == [] then "" else ls[0] + "\n" + Unlines(ls[1..])
  }

  /** The pieces written one after the other. */
  function Concat(ls: seq<string>): string
  {
    if ls == [] then "" else ls[0] + Concat(ls[1..])
  }

  /** Writing one more line appends it and its newline. */
  lemma {:induction false} UnlinesSnoc(ls: seq<string>, l: string)
    ensures Unlines(ls + [l]) == Unlines(ls) + l + "\n"
  {
    if ls != [] {
      assert (ls + [l])[1..] == ls[1..] + [l];
      UnlinesSnoc(ls[1..], l);
    } else {
      assert Unlines([l]) == l + "\n" + Unlines([]);
    }
  }

  // ---- decimal numbers -------------------------------------------------

  predicate IsDigit(c: char)
  {
    '0' <= c <= '9'
  }

  predicate AllDigits(s: string)
  {
    forall i :: 0 <= i < |s| ==> IsDigit(s[i])
  }

  function DigitChar(d: nat): (c: char)
    requires d < 10
    ensures IsDigit(c) && c as int - '0' as int == d
  {
    ('0' as int + d) as char
  }

  /** The value of a string of decimal digits, most significant first. */
  function DigitsValue(s: string): nat
    requires AllDigits(s)
  {
    if s == [] then 0
    else 10 * DigitsValue(s[..|s| - 1]) + (s[|s| - 1] as int - '0' as int)
  }

  /** The decimal digits of `n` with no leading zero. */
  function NatDigits(n: nat): (r: string)
    ensures r != [] && AllDigits(r)
    ensures |r| > 1 ==> r[0] != '0'
    ensures DigitsValue(r) == n
    decreases n
  {
    if n < 10 then [DigitChar(n)]
    else
      var r := NatDigits(n / 10) + [DigitChar(n % 10)];
      assert r[..|r| - 1] == NatDigits(n / 10);
      r
  }

  /** Python's `int(s)` on an optionally signed run of decimal digits;
      `None` where Python raises `ValueError`. */
  function ParseInt(s: string): Option<int>
  {
    if s != [] && (s[0] == '-' || s[0] == '+') then
      if s[1..] != [] && AllDigits(s[1..]) then
        Some(if s[0] == '-' then 0 - DigitsValue(s[1..]) else DigitsValue(s[1..]))
      else None
    else if s != [] && AllDigits(s) then Some(DigitsValue(s))
    else None
  }

  /** Python's `'%d' % n`. */
  function DecimalString(n: int): (r: string)
    ensures ParseInt(r) == Some(n)
    ensures r != [] && (r[0] == '-' <==> n < 0)
    ensures n >= 0 ==> AllDigits(r)
    ensures n >= 0 && |r| > 1 ==> r[0] != '0'
    ensures n < 0 ==> |r| > 1 && r[1] != '0'
  {
    if n < 0 then
      var d := NatDigits(-n);
      assert |d| == 1 ==> DigitsValue(d) == d[0] as int - '0' as int by {
        if |d| == 1 { assert d[..0] == []; }
      }
      var r := "-" + d;
      assert r[1..] == d;
      r
    else NatDigits(n)
  }

  // ---- str methods -----------------------------------------------------

  /** Python's `s.replace(from, to)` for one-character arguments. */
  function ReplaceChar(s: string, from: char, to: char): (r: string)
    ensures |r| == |s|
    ensures forall i :: 0 <= i < |s| ==> r[i] == (if s[i] == from then to else s[i])
    ensures from != to ==> from !in r
  {
    seq(|s|, i requires 0 <= i < |s| => if s[i] == from then to else s[i])
  }

  /** Number of leading `c` characters of `s`. */
  function LeadingRun(s: string, c: char): (k: nat)
    ensures k <= |s|
    ensures forall i :: 0 <= i < k ==> s[i] == c
    ensures k < |s| ==> s[k] != c
  {
    if s == [] || s[0] != c then 0 else 1 + LeadingRun(s[1..], c)
  }

  /** Number of trailing `c` characters of `s`. */
  function TrailingRun(s: string, c: char): (k: nat)
    ensures k <= |s|
    ensures forall i :: |s| - k <= i < |s| ==> s[i] == c
    ensures k < |s| ==> s[|s| - 1 - k] != c
  {
    if s == [] || s[|s| - 1] != c then 0 else 1 + TrailingRun(s[..|s| - 1], c)
  }

  /** Python's `s.strip(c)` for a one-character argument. */
  function Strip(s: string, c: char): (r: string)
    ensures r == [] || (r[0] != c && r[|r| - 1] != c)
    ensures |r| <= |s|
  {
    var lo := LeadingRun(s, c);
    if lo == |s| then []
    else
      var hi := |s| - TrailingRun(s, c);
      assert lo < hi;
      s[lo..hi]
  }

  /** Stripping removes exactly the runs of `c` around a core that neither
      starts nor ends with `c`, and nothing inside it. */
  lemma StripAround(pre: string, core: string, post: string, c: char)
    requires forall i :: 0 <= i < |pre| ==> pre[i] == c
    requires forall i :: 0 <= i < |post| ==> post[i] == c
    requires core == [] || (core[0] != c && core[|core| - 1] != c)
    ensures Strip(pre + core + post, c) == core
  {
    var s := pre + core + post;
    if core == [] {
      assert forall i :: 0 <= i < |s| ==> s[i] == c;
      assert LeadingRun(s, c) == |s|;
    } else {
      assert s[|pre|] == core[0];
      assert LeadingRun(s, c) == |pre|;
      assert s[|s| - 1 - |post|] == core[|core| - 1];
      assert TrailingRun(s, c) == |post|;
      assert s[|pre|..|s| - |post|] == core;
    }
  }

  /** Python's `line.split(sep, 1)`: `None` when `sep` does not occur (the
      split then has one piece), otherwise the text before the first `sep`
      and everything after it. */
  function SplitFirst(line: string, sep: char): (r: Option<(string, string)>)
    ensures r.None? <==> sep !in line
    ensures r.Some? ==> line == r.value.0 + [sep] + r.value.1 && sep !in r.value.0
  {
    var k := IndexOf(line, sep);
    if k == |line| then None
    else
      assert line == line[..k] + [sep] + line[k + 1..];
      Some((line[..k], line[k + 1..]))
  }

  /** The split is at the first separator: a key without `sep` comes back
      whole, and the value keeps every later `sep`. */
  lemma SplitFirstOfPair(key: string, sep: char, value: string)
    requires sep !in key
    ensures SplitFirst(key + [sep] + value, sep) == Some((key, value))
  {
    var line := key + [sep] + value;
    assert forall i :: 0 <= i < |key| ==> line[i] == key[i];
    assert line[|key|] == sep;
    assert IndexOf(line, sep) == |key|;
    assert line[..|key|] == key;
    assert line[|key| + 1..] == value;
  }
}
