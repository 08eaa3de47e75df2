/** String operations the scripts and the viewer use, on ASCII text.
    Python's `\w`, `\s`, `lower()` and `title()`, and JavaScript's
    `toLowerCase()` and `trim()`, are Unicode-aware in their languages; here
    they are given their ASCII meaning. */
module Text {

  // ---------------------------------------------------------------------
  // Character classes
  // ---------------------------------------------------------------------

  predicate IsUpper(c: char) { 'A' <= c <= 'Z' }
  predicate IsLower(c: char) { 'a' <= c <= 'z' }
  predicate IsLetter(c: char) { IsUpper(c) || IsLower(c) }
  predicate IsDigit(c: char) { '0' <= c <= '9' }

  /** Python's `\w`: letters, digits and the underscore. */
  predicate IsWordChar(c: char) { IsLetter(c) || IsDigit(c) || c == '_' }

  /** Python's `\s` and `str.isspace()`: space, `\t` `\n` `\v` `\f` `\r`
      and the four information separators `\x1c`..`\x1f`. */
  predicate IsPySpace(c: char) { c == ' ' || '\t' <= c <= '\r' || '\U{1C}' <= c <= '\U{1F}' }

  /** The white space JavaScript's `String.prototype.trim` removes. */
  predicate IsJsSpace(c: char) { c == ' ' || '\t' <= c <= '\r' }

  function LowerChar(c: char): char { if IsUpper(c) then (c as int + 32) as char else c }
  function UpperChar(c: char): char { if IsLower(c) then (c as int - 32) as char else c }

  // ---------------------------------------------------------------------
  // Whole-string maps
  // ---------------------------------------------------------------------

  /** `s.lower()` in Python, `s.toLowerCase()` in JavaScript. */
  function Lower(s: string): string {
    seq(|s|, i requires 0 <= i < |s| => LowerChar(s[i]))
  }

  lemma LowerAppend(a: string, b: string)
    ensures Lower(a + b) == Lower(a) + Lower(b)
  {
  }

  /** `s.replace(a, b)` for one-character `a` and `b`. */
  function ReplaceChar(s: string, a: char, b: char): string {
    seq(|s|, i requires 0 <= i < |s| => if s[i] == a then b else s[i])
  }

  /** Python's `str.title()`: a letter that follows a letter is lowered, any
      other letter is raised; other characters are kept. */
  function TitleCase(s: string): string {
    seq(|s|, i requires 0 <= i < |s| =>
      if !IsLetter(s[i]) then s[i]
      else if i == 0 || !IsLetter(s[i - 1]) then UpperChar(s[i])
      else LowerChar(s[i]))
  }

  /** The characters of `s` that satisfy `keep`, in order. */
  function Keep(s: string, keep: char -> bool): (r: string)
    ensures |r| <= |s|
    ensures forall c :: c in r ==> c in s && keep(c)
  {
    if s == [] then [] else (if keep(s[0]) then [s[0]] else []) + Keep(s[1..], keep)
  }

  lemma {:induction false} KeepAll(s: string, keep: char -> bool)
    requires forall i :: 0 <= i < |s| ==> keep(s[i])
    ensures Keep(s, keep) == s
  {
    if s != [] {
      KeepAll(s[1..], keep);
      assert s == [s[0]] + s[1..];
    }
  }

  /** Nothing is kept of a string none of whose characters satisfy `keep`. */
  lemma {:induction false} KeepNone(s: string, keep: char -> bool)
    requires forall i :: 0 <= i < |s| ==> !keep(s[i])
    ensures Keep(s, keep) == []
  {
    if s != [] {
      KeepNone(s[1..], keep);
    }
  }

  /** Filtering works piece by piece: the kept characters of `a + b` are
      those of `a` followed by those of `b`. */
  lemma {:induction false} KeepAppend(a: string, b: string, keep: char -> bool)
    ensures Keep(a + b, keep) == Keep(a, keep) + Keep(b, keep)
  {
    if a == [] {
      assert a + b == b;
    } else {
      assert (a + b)[0] == a[0] && (a + b)[1..] == a[1..] + b;
      KeepAppend(a[1..], b, keep);
    }
  }

  /** One character is kept exactly when it satisfies `keep`. */
  lemma KeepOne(c: char, keep: char -> bool)
    ensures Keep([c], keep) == if keep(c) then [c] else []
  {
    assert [c][1..] == [];
  }

  // ---------------------------------------------------------------------
  // Trimming
  // ---------------------------------------------------------------------

  /** The number of leading characters of `s` that satisfy `space`. */
  function LeadingCount(s: string, space: char -> bool): (n: nat)
    ensures n <= |s|
    ensures forall i :: 0 <= i < n ==> space(s[i])
    ensures n == |s| || !space(s[n])
  {
    if s != [] && space(s[0]) then 1 + LeadingCount(s[1..], space) else 0
  }

  /** The number of trailing characters of `s` that satisfy `space`. */
  function TrailingCount(s: string, space: char -> bool): (n: nat)
    ensures n <= |s|
    ensures forall i :: |s| - n <= i < |s| ==> space(s[i])
    ensures n == |s| || !space(s[|s| - n - 1])
  {
    if s != [] && space(s[|s| - 1]) then 1 + TrailingCount(s[..|s| - 1], space) else 0
  }

  /** `s` without its leading characters that satisfy `space`. */
  function TrimLeft(s: string, space: char -> bool): (r: string)
    ensures |r| <= |s| && forall i :: 0 <= i < |r| ==> r[i] == s[|s| - |r| + i]
    ensures r == [] || !space(r[0])
    ensures forall i :: 0 <= i < |s| - |r| ==> space(s[i])
  {
    s[LeadingCount(s, space)..]
  }

  /** `s` without its trailing characters that satisfy `space`. */
  function TrimRight(s: string, space: char -> bool): (r: string)
    ensures |r| <= |s| && forall i :: 0 <= i < |r| ==> r[i] == s[i]
    ensures r == [] || !space(r[|r| - 1])
    ensures forall i :: |r| <= i < |s| ==> space(s[i])
  {
    s[..|s| - TrailingCount(s, space)]
  }

  /** Python's `str.strip()` and JavaScript's `trim()`, for the given white space. */
  function Strip(s: string, space: char -> bool): string {
    TrimLeft(TrimRight(s, space), space)
  }

  /** Trimming only removes characters. */
  lemma StripChars(s: string, space: char -> bool)
    ensures forall c :: c in Strip(s, space) ==> c in s
    ensures (forall i :: 0 <= i < |s| ==> space(s[i])) ==> Strip(s, space) == []
  {
    var t := TrimRight(s, space);
    var r := TrimLeft(t, space);
    forall c | c in r ensures c in s {
      var i :| 0 <= i < |r| && r[i] == c;
      assert r[i] == t[|t| - |r| + i] == s[|t| - |r| + i];
    }
  }

  lemma StripTrimRight(s: string, space: char -> bool)
    ensures Strip(TrimRight(s, space), space) == Strip(s, space)
  {
    var t := TrimRight(s, space);
    assert TrimRight(t, space) == t;
  }

  /** Lower-casing keeps JavaScript white space and non-white space apart. */
  lemma LowerCharJsSpace(c: char)
    ensures IsJsSpace(LowerChar(c)) <==> IsJsSpace(c)
  {
  }

  lemma {:induction false} LeadingCountLower(s: string)
    ensures LeadingCount(Lower(s), IsJsSpace) == LeadingCount(s, IsJsSpace)
  {
    if s != [] {
      LowerCharJsSpace(s[0]);
      assert Lower(s)[1..] == Lower(s[1..]);
      LeadingCountLower(s[1..]);
    }
  }

  lemma {:induction false} TrailingCountLower(s: string)
    ensures TrailingCount(Lower(s), IsJsSpace) == TrailingCount(s, IsJsSpace)
  {
    if s != [] {
      LowerCharJsSpace(s[|s| - 1]);
      assert Lower(s)[..|s| - 1] == Lower(s[..|s| - 1]);
      TrailingCountLower(s[..|s| - 1]);
    }
  }

  /** Trimming and lower-casing commute: `s.toLowerCase().trim()` is
      `s.trim().toLowerCase()`. */
  lemma StripLower(s: string)
    ensures Strip(Lower(s), IsJsSpace) == Lower(Strip(s, IsJsSpace))
  {
    TrimRightLower(s);
    TrimLeftLower(TrimRight(s, IsJsSpace));
  }

  lemma TrimRightLower(s: string)
    ensures TrimRight(Lower(s), IsJsSpace) == Lower(TrimRight(s, IsJsSpace))
  {
    TrailingCountLower(s);
    LowerPrefix(s, |s| - TrailingCount(s, IsJsSpace));
  }

  lemma TrimLeftLower(s: string)
    ensures TrimLeft(Lower(s), IsJsSpace) == Lower(TrimLeft(s, IsJsSpace))
  {
    LeadingCountLower(s);
    LowerSuffix(s, LeadingCount(s, IsJsSpace));
  }

  lemma LowerPrefix(s: string, n: nat)
    requires n <= |s|
    ensures Lower(s)[..n] == Lower(s[..n])
  {
  }

  lemma LowerSuffix(s: string, n: nat)
    requires n <= |s|
    ensures Lower(s)[n..] == Lower(s[n..])
  {
  }

  // ---------------------------------------------------------------------
  // Searching
  // ---------------------------------------------------------------------

  predicate StartsWith(s: string, p: string) { |p| <= |s| && s[..|p|] == p }
  predicate EndsWith(s: string, p: string) { |p| <= |s| && s[|s| - |p|..] == p }

  /** `p` occurs in `s` starting at index `i`. */
  predicate OccursAt(s: string, p: string, i: int) {
    0 <= i && i + |p| <= |s| && s[i..i + |p|] == p
  }

  /** `p in s` in Python, `s.includes(p)` in JavaScript. */
  predicate Contains(s: string, p: string) {
    exists i :: 0 <= i <= |s| - |p| && OccursAt(s, p, i)
  }

  /** A string holding `p` holds every tail of `p` as well: a name that
      contains "female" contains "male", one that contains "woman" contains
      "man". */
  lemma ContainsTail(s: string, p: string, k: nat)
    requires k <= |p| && Contains(s, p)
    ensures Contains(s, p[k..])
  {
    var i :| 0 <= i <= |s| - |p| && OccursAt(s, p, i);
    assert s[i..i + |p|] == p;
    assert s[i + k..i + |p|] == p[k..];
    assert OccursAt(s, p[k..], i + k);
  }

  lemma ContainsEmpty(s: string)
    ensures Contains(s, "")
  {
    assert OccursAt(s, "", 0);
  }

  lemma ContainsAt(s: string, p: string, i: nat)
    requires OccursAt(s, p, i)
    ensures Contains(s, p)
  {
  }

  /** Containment is transitive: a string holding `p` holds everything `p`
      holds. */
  lemma ContainsTrans(s: string, p: string, q: string)
    requires Contains(s, p) && Contains(p, q)
    ensures Contains(s, q)
  {
    var i :| 0 <= i <= |s| - |p| && OccursAt(s, p, i);
    var j :| 0 <= j <= |p| - |q| && OccursAt(p, q, j);
    forall k | 0 <= k < |q| ensures s[i + j + k] == q[k] {
      assert s[i..i + |p|][j + k] == p[j + k];
      assert p[j..j + |q|][k] == q[k];
    }
    assert s[i + j..i + j + |q|] == q;
    assert OccursAt(s, q, i + j);
  }

  // ---------------------------------------------------------------------
  // Splitting and joining
  // ---------------------------------------------------------------------

  /** `s.split(sep)[-1]`: the text after the last `sep`, all of `s` when it
      holds none. */
  function AfterLast(s: string, sep: char): (r: string)
    ensures sep !in r
    ensures |r| <= |s| && r == s[|s| - |r|..]
    ensures |r| < |s| ==> s[|s| - |r| - 1] == sep
  {
    if s == [] then []
    else if s[|s| - 1] == sep then []
    else AfterLast(s[..|s| - 1], sep) + [s[|s| - 1]]
  }

  /** A string without `sep` is its own last segment. */
  lemma AfterLastWithout(s: string, sep: char)
    requires sep !in s
    ensures AfterLast(s, sep) == s
  {
  }

  /** One more character ends the last segment, or starts a new one. */
  lemma AfterLastSnoc(s: string, c: char, sep: char)
    ensures AfterLast(s + [c], sep) == if c == sep then [] else AfterLast(s, sep) + [c]
  {
    assert (s + [c])[..|s|] == s;
  }

  /** Everything up to the last `sep` is ignored: the folders in front of a
      name do not change its last segment. */
  lemma {:induction false} AfterLastAfterSep(a: string, b: string, sep: char)
    ensures AfterLast(a + [sep] + b, sep) == AfterLast(b, sep)
  {
    if b == [] {
      assert a + [sep] + b == a + [sep];
      AfterLastSnoc(a, sep, sep);
    } else {
      var init, c := b[..|b| - 1], b[|b| - 1];
      assert b == init + [c];
      assert a + [sep] + b == (a + [sep] + init) + [c];
      AfterLastAfterSep(a, init, sep);
      AfterLastSnoc(a + [sep] + init, c, sep);
      AfterLastSnoc(init, c, sep);
    }
  }

  /** `sep.join(parts)`. */
  function Join(parts: seq<string>, sep: string): string {
    if |parts| == 0 then ""
    else if |parts| == 1 then parts[0]
    else Join(parts[..|parts| - 1], sep) + sep + parts[|parts| - 1]
  }

  /** `reversed(xs)`. */
  function Reverse<T>(xs: seq<T>): (r: seq<T>)
    ensures |r| == |xs|
    ensures forall i :: 0 <= i < |xs| ==> r[i] == xs[|xs| - 1 - i]
  {
    if xs == [] then [] else Reverse(xs[1..]) + [xs[0]]
  }

  /** `re.sub(r'[<class>]+', rep, s)`: every maximal run of characters of
      the class becomes one `rep`. */
  function CollapseRuns(s: string, cls: char -> bool, rep: char): (r: string)
    requires !cls(rep)
    ensures forall c :: c in r ==> !cls(c)
    ensures forall c :: c in r ==> c in s || c == rep
    decreases |s|
  {
    if s == [] then []
    else if cls(s[0]) then [rep] + CollapseRuns(TrimLeft(s[1..], cls), cls, rep)
    else [s[0]] + CollapseRuns(s[1..], cls, rep)
  }

  /** With `b` empty or starting outside the class, the leading run of
      `a + b` is that of `a`. */
  lemma {:induction false} LeadingCountAppend(a: string, b: string, cls: char -> bool)
    requires b == [] || !cls(b[0])
    ensures LeadingCount(a + b, cls) == LeadingCount(a, cls)
  {
    if a == [] {
      assert a + b == b;
    } else {
      assert (a + b)[0] == a[0] && (a + b)[1..] == a[1..] + b;
      LeadingCountAppend(a[1..], b, cls);
    }
  }

  /** Trimming the front of `a + b` stops inside `a` when `b` starts
      outside the class. */
  lemma TrimLeftAppend(a: string, b: string, cls: char -> bool)
    requires b == [] || !cls(b[0])
    ensures TrimLeft(a + b, cls) == TrimLeft(a, cls) + b
  {
    LeadingCountAppend(a, b, cls);
    var n := LeadingCount(a, cls);
    assert (a + b)[n..] == a[n..] + b;
  }

  lemma ConsAssoc(x: string, y: string, z: string)
    ensures x + (y + z) == (x + y) + z
  {
  }

  /** Collapsing works piece by piece across a boundary that no run
      crosses: a piece that starts outside the class starts a new part. */
  lemma {:induction false} CollapseRunsAppend(a: string, b: string, cls: char -> bool, rep: char)
    requires !cls(rep)
    requires b == [] || !cls(b[0])
    ensures CollapseRuns(a + b, cls, rep) == CollapseRuns(a, cls, rep) + CollapseRuns(b, cls, rep)
    decreases |a|
  {
    if a == [] {
      assert a + b == b;
    } else {
      var s := a + b;
      assert s[0] == a[0] && s[1..] == a[1..] + b;
      var head := if cls(a[0]) then [rep] else [a[0]];
      var rest := if cls(a[0]) then TrimLeft(a[1..], cls) else a[1..];
      if cls(a[0]) {
        TrimLeftAppend(a[1..], b, cls);
      }
      assert CollapseRuns(s, cls, rep) == head + CollapseRuns(rest + b, cls, rep);
      assert CollapseRuns(a, cls, rep) == head + CollapseRuns(rest, cls, rep);
      CollapseRunsAppend(rest, b, cls, rep);
      ConsAssoc(head, CollapseRuns(rest, cls, rep), CollapseRuns(b, cls, rep));
    }
  }

  /** A piece with no character of the class passes through unchanged,
      whatever follows it. */
  lemma {:induction false} CollapseRunsKeepsPrefix(a: string, b: string, cls: char -> bool, rep: char)
    requires !cls(rep)
    requires forall i :: 0 <= i < |a| ==> !cls(a[i])
    ensures CollapseRuns(a + b, cls, rep) == a + CollapseRuns(b, cls, rep)
  {
    if a == [] {
      assert a + b == b;
    } else {
      assert (a + b)[0] == a[0] && (a + b)[1..] == a[1..] + b;
      CollapseRunsKeepsPrefix(a[1..], b, cls, rep);
    }
  }

  /** Two pieces outside the class around a run of it: the run becomes
      one `rep` and the pieces stay. */
  lemma CollapseRunsJoin(a: string, run: string, b: string, cls: char -> bool, rep: char)
    requires !cls(rep)
    requires forall i :: 0 <= i < |a| ==> !cls(a[i])
    requires forall i :: 0 <= i < |b| ==> !cls(b[i])
    requires run != [] && forall i :: 0 <= i < |run| ==> cls(run[i])
    ensures CollapseRuns(a + run + b, cls, rep) == a + [rep] + b
  {
    CollapseRunsAppend(a + run, b, cls, rep);
    CollapseRunsKeepsPrefix(a, run, cls, rep);
    CollapseRunsRun(run, cls, rep);
    assert forall c :: c in b ==> !cls(c);
    CollapseRunsNoop(b, cls, rep);
  }

  /** A run of characters of the class becomes exactly one `rep`. */
  lemma CollapseRunsRun(run: string, cls: char -> bool, rep: char)
    requires !cls(rep)
    requires run != [] && forall i :: 0 <= i < |run| ==> cls(run[i])
    ensures CollapseRuns(run, cls, rep) == [rep]
  {
    assert TrimLeft(run[1..], cls) == [];
  }

  /** A character outside the class is kept as it is. */
  lemma CollapseRunsOther(c: char, cls: char -> bool, rep: char)
    requires !cls(rep) && !cls(c)
    ensures CollapseRuns([c], cls, rep) == [c]
  {
    assert [c][1..] == [];
  }

  /** A string with no character of the class is left as it is. */
  lemma {:induction false} CollapseRunsNoop(s: string, cls: char -> bool, rep: char)
    requires !cls(rep)
    requires forall c :: c in s ==> !cls(c)
    ensures CollapseRuns(s, cls, rep) == s
  {
    if s != [] {
      assert s[0] in s;
      assert forall c :: c in s[1..] ==> c in s;
      CollapseRunsNoop(s[1..], cls, rep);
      assert s == [s[0]] + s[1..];
    }
  }
}
