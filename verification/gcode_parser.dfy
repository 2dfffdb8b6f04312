/** The G-code parser (core/gcode_parser/index.js): one block per source
    line, comments stripped, words `<letter><signed decimal>` scanned left to
    right, syntax errors recorded on the block instead of thrown.

    The two regular expressions of the source are written out as explicit
    scanners. JavaScript's `.` matches anything except the four line
    terminators, and `$` without the `m` flag matches only at the end of the
    input; both facts shape `StripParens` and `StripSemicolon`. */
module GcodeParser {
  import opened Wrappers

  /** A scanned word: its letter, its numeric value and the exact text it was
      scanned from. */
  datatype Word = Word(letter: char, value: real, raw: string)

  /** One parsed line. `errors` is empty for every line the interpreter will
      execute. */
  datatype Block = Block(lineNumber: nat, raw: string, cleaned: string,
                         words: seq<Word>, errors: seq<string>)

  // ---------------------------------------------------------------------
  // Character classes

  /** The characters JavaScript's `.` refuses to match. */
  predicate IsLineTerminator(c: char) {
    c == '\n' || c == '\r' || c == '\U{2028}' || c == '\U{2029}'
  }

  /** JavaScript's `\s`, which is also what `String.prototype.trim` removes. */
  predicate IsSpace(c: char) {
    || IsLineTerminator(c)
    || c == '\t' || c == '\U{B}' || c == '\U{C}' || c == ' '
    || c == '\U{A0}' || c == '\U{1680}' || ('\U{2000}' <= c <= '\U{200A}')
    || c == '\U{202F}' || c == '\U{205F}' || c == '\U{3000}' || c == '\U{FEFF}'
  }

  predicate IsUpperLetter(c: char) { 'A' <= c <= 'Z' }

  predicate IsDigit(c: char) { '0' <= c <= '9' }

  predicate NoLineTerminator(s: string) {
    forall i :: 0 <= i < |s| ==> !IsLineTerminator(s[i])
  }

  // ---------------------------------------------------------------------
  // stripComments: `.replace(/\(.*?\)/g, '')` then `.replace(/;.*$/g, '')`

  /** Where the lazy `.*?\)` that follows an opening parenthesis ends: the
      index in `t` of the first `)`, provided no line terminator comes
      before it. */
  function CloseParen(t: string): (r: Option<nat>)
    ensures r.Some? ==> r.value < |t| && t[r.value] == ')'
    ensures r.Some? ==> NoLineTerminator(t[..r.value])
    ensures r.Some? ==> forall k :: 0 <= k < r.value ==> t[k] != ')'
  {
    if t == [] || IsLineTerminator(t[0]) then None
    else if t[0] == ')' then Some(0)
    else
      match CloseParen(t[1..])
      case None => None
      case Some(j) =>
        assert t[..j + 1] == [t[0]] + t[1..][..j];
        Some(j + 1)
  }

  /** The lazy match fails exactly when every `)` of `t` has a line
      terminator before it. */
  lemma {:induction false} CloseParenNone(t: string)
    ensures CloseParen(t).None? <==>
              forall i :: 0 <= i < |t| && t[i] == ')' ==> !NoLineTerminator(t[..i])
    decreases |t|
  {
    if t != [] && !IsLineTerminator(t[0]) && t[0] != ')' {
      CloseParenNone(t[1..]);
      if CloseParen(t).None? {
        forall i | 0 <= i < |t| && t[i] == ')'
          ensures !NoLineTerminator(t[..i])
        {
          assert t[1..][i - 1] == ')';
          var k :| 0 <= k < i - 1 && IsLineTerminator(t[1..][..i - 1][k]);
          assert t[..i][k + 1] == t[1..][..i - 1][k];
        }
      }
    } else if t != [] && IsLineTerminator(t[0]) {
      forall i | 0 <= i < |t| && t[i] == ')'
        ensures !NoLineTerminator(t[..i])
      {
        assert t[..i][0] == t[0];
      }
    }
  }

  /** Removes, scanning left to right, every `(` together with the shortest
      text up to the next `)` on the same line. */
  function StripParens(s: string): (r: string)
    ensures |r| <= |s|
    decreases |s|
  {
    if s == [] then []
    else if s[0] == '(' && CloseParen(s[1..]).Some? then
      StripParens(s[CloseParen(s[1..]).value + 2..])
    else [s[0]] + StripParens(s[1..])
  }

  /** Removes the first `;` from which no line terminator follows, together
      with everything after it. */
  function StripSemicolon(s: string): (r: string)
    ensures |r| <= |s|
  {
    if s == [] then []
    else if s[0] == ';' && NoLineTerminator(s[1..]) then []
    else [s[0]] + StripSemicolon(s[1..])
  }

  /** `stripComments`: the parenthesis pass, then the semicolon pass. What
      it leaves has no closable group and no end-of-line `;` comment. */
  function StripComments(line: string): (r: string)
    ensures NoClosableGroup(r)
    ensures NoTrailingComment(r)
  {
    StripParensLeavesNoGroup(line);
    StripSemicolonKeepsNoGroup(StripParens(line));
    StripSemicolonLeavesNoComment(StripParens(line));
    StripSemicolon(StripParens(line))
  }

  /** No `(` of `s` is closed by a `)` on the same line. */
  predicate NoClosableGroup(s: string) {
    s == [] || ((s[0] == '(' ==> CloseParen(s[1..]).None?) && NoClosableGroup(s[1..]))
  }

  /** No `;` of `s` is followed by nothing but text up to the end of input. */
  predicate NoTrailingComment(s: string) {
    s == [] || (!(s[0] == ';' && NoLineTerminator(s[1..])) && NoTrailingComment(s[1..]))
  }

  lemma {:induction false} StripParensKeepsUnclosed(t: string)
    requires CloseParen(t).None?
    ensures CloseParen(StripParens(t)).None?
    decreases |t|
  {
    if t != [] && !IsLineTerminator(t[0]) {
      assert t[0] != ')';
      assert CloseParen(t[1..]).None?;
      StripParensKeepsUnclosed(t[1..]);
      var r := StripParens(t);
      assert r == [t[0]] + StripParens(t[1..]);
      assert r[1..] == StripParens(t[1..]);
    }
  }

  lemma {:induction false} StripParensLeavesNoGroup(s: string)
    ensures NoClosableGroup(StripParens(s))
    decreases |s|
  {
    if s == [] {
    } else if s[0] == '(' && CloseParen(s[1..]).Some? {
      StripParensLeavesNoGroup(s[CloseParen(s[1..]).value + 2..]);
    } else {
      StripParensLeavesNoGroup(s[1..]);
      var r := StripParens(s);
      assert r[1..] == StripParens(s[1..]);
      if s[0] == '(' {
        StripParensKeepsUnclosed(s[1..]);
      }
    }
  }

  lemma {:induction false} StripParensIdentity(s: string)
    requires NoClosableGroup(s)
    ensures StripParens(s) == s
    decreases |s|
  {
    if s != [] {
      StripParensIdentity(s[1..]);
      assert s == [s[0]] + s[1..];
    }
  }

  lemma {:induction false} StripSemicolonKeepsUnclosed(t: string)
    requires CloseParen(t).None?
    ensures CloseParen(StripSemicolon(t)).None?
    decreases |t|
  {
    if t != [] && !IsLineTerminator(t[0]) && !(t[0] == ';' && NoLineTerminator(t[1..])) {
      assert CloseParen(t[1..]).None?;
      StripSemicolonKeepsUnclosed(t[1..]);
      var r := StripSemicolon(t);
      assert r[1..] == StripSemicolon(t[1..]);
    }
  }

  lemma {:induction false} StripSemicolonKeepsNoGroup(s: string)
    requires NoClosableGroup(s)
    ensures NoClosableGroup(StripSemicolon(s))
    decreases |s|
  {
    if s != [] && !(s[0] == ';' && NoLineTerminator(s[1..])) {
      StripSemicolonKeepsNoGroup(s[1..]);
      var r := StripSemicolon(s);
      assert r[1..] == StripSemicolon(s[1..]);
      if s[0] == '(' {
        StripSemicolonKeepsUnclosed(s[1..]);
      }
    }
  }

  /** Line terminators survive the semicolon cut. */
  lemma {:induction false} StripSemicolonKeepsTerminators(t: string)
    requires !NoLineTerminator(t)
    ensures !NoLineTerminator(StripSemicolon(t))
    decreases |t|
  {
    var r := StripSemicolon(t);
    if IsLineTerminator(t[0]) {
      assert r[0] == t[0];
    } else {
      assert !NoLineTerminator(t[1..]) by {
        var i :| 0 <= i < |t| && IsLineTerminator(t[i]);
        assert t[1..][i - 1] == t[i];
      }
      StripSemicolonKeepsTerminators(t[1..]);
      var j :| 0 <= j < |StripSemicolon(t[1..])| && IsLineTerminator(StripSemicolon(t[1..])[j]);
      assert r[j + 1] == StripSemicolon(t[1..])[j];
    }
  }

  lemma {:induction false} StripSemicolonLeavesNoComment(s: string)
    ensures NoTrailingComment(StripSemicolon(s))
    decreases |s|
  {
    if s != [] && !(s[0] == ';' && NoLineTerminator(s[1..])) {
      StripSemicolonLeavesNoComment(s[1..]);
      var r := StripSemicolon(s);
      assert r[1..] == StripSemicolon(s[1..]);
      if s[0] == ';' {
        StripSemicolonKeepsTerminators(s[1..]);
      }
    }
  }

  lemma {:induction false} StripSemicolonIdentity(s: string)
    requires NoTrailingComment(s)
    ensures StripSemicolon(s) == s
    decreases |s|
  {
    if s != [] {
      StripSemicolonIdentity(s[1..]);
      assert s == [s[0]] + s[1..];
    }
  }

  /** Stripping what `stripComments` left changes nothing. */
  lemma StripCommentsIdempotent(line: string)
    ensures StripComments(StripComments(line)) == StripComments(line)
  {
    var once := StripComments(line);
    StripParensIdentity(once);
    StripSemicolonIdentity(once);
  }

  /** On a line without line terminators the semicolon comment is cut at the
      first `;`. */
  lemma {:induction false} StripSemicolonCutsAtFirst(s: string)
    requires NoLineTerminator(s)
    ensures StripSemicolon(s) == s[..IndexOf(s, ';')]
    decreases |s|
  {
    if s != [] && s[0] != ';' {
      assert NoLineTerminator(s[1..]) by {
        forall i | 0 <= i < |s[1..]| ensures !IsLineTerminator(s[1..][i]) {
          assert s[1..][i] == s[i + 1];
        }
      }
      StripSemicolonCutsAtFirst(s[1..]);
      assert s[..IndexOf(s, ';')] == [s[0]] + s[1..][..IndexOf(s[1..], ';')];
    } else if s != [] {
      assert NoLineTerminator(s[1..]) by {
        forall i | 0 <= i < |s[1..]| ensures !IsLineTerminator(s[1..][i]) {
          assert s[1..][i] == s[i + 1];
        }
      }
    }
  }

  /** The first `)` of a line closes the group. */
  lemma CloseAtFirst(t: string, m: nat)
    requires m < |t| && t[m] == ')' && NoLineTerminator(t[..m])
    requires forall k :: 0 <= k < m ==> t[k] != ')'
    ensures CloseParen(t) == Some(m)
  {
    CloseParenNone(t);
  }

  /** A first character other than `(` is kept. */
  lemma StripParensKeeps(s: string)
    requires s != [] && s[0] != '('
    ensures StripParens(s) == [s[0]] + StripParens(s[1..])
  {
  }

  /** Text without `(` passes the parenthesis pass unchanged, whatever
      follows it. */
  lemma {:induction false} StripParensKeepsPrefix(pre: string, rest: string)
    requires forall k :: 0 <= k < |pre| ==> pre[k] != '('
    ensures StripParens(pre + rest) == pre + StripParens(rest)
    decreases |pre|
  {
    if pre != [] {
      var s := pre + rest;
      assert s[0] == pre[0];
      assert s[1..] == pre[1..] + rest;
      StripParensKeeps(s);
      StripParensKeepsPrefix(pre[1..], rest);
      assert [pre[0]] + (pre[1..] + StripParens(rest)) == pre + StripParens(rest);
    } else {
      assert pre + rest == rest;
      assert pre + StripParens(rest) == StripParens(rest);
    }
  }

  /** A `(` followed by text without `)` or line terminators and then a `)`
      is one group: the pass removes it and goes on after the `)`. */
  lemma StripParensDropsGroup(mid: string, post: string)
    requires NoLineTerminator(mid) && forall k :: 0 <= k < |mid| ==> mid[k] != ')'
    ensures StripParens("(" + mid + ")" + post) == StripParens(post)
  {
    var s := "(" + mid + ")" + post;
    var t := s[1..];
    assert t == mid + ")" + post;
    assert t[..|mid|] == mid;
    CloseAtFirst(t, |mid|);
    assert s[|mid| + 2..] == post;
  }

  /** The parenthesis pass removes the first `(` together with the text up
      to the first `)` after it, the shortest group there is, when no line
      terminator comes between them; it keeps what comes before and goes
      on after the `)`. */
  lemma StripParensCutsAtFirst(pre: string, mid: string, post: string)
    requires forall k :: 0 <= k < |pre| ==> pre[k] != '('
    requires NoLineTerminator(mid) && forall k :: 0 <= k < |mid| ==> mid[k] != ')'
    ensures StripParens(pre + ("(" + mid + ")" + post)) == pre + StripParens(post)
  {
    StripParensKeepsPrefix(pre, "(" + mid + ")" + post);
    StripParensDropsGroup(mid, post);
  }

  /** The group closes at the first `)`: in `(a)b)` only `(a)` goes, where
      a greedy `\(.*\)` would take the whole text. */
  lemma LazyGroupExample()
    ensures CloseParen("a)b)") == Some(1)
    ensures StripParens("(a)b)") == "b)"
  {
    StripParensCutsAtFirst("", "a", "b)");
    assert "" + ("(" + "a" + ")" + "b)") == "(a)b)";
    assert StripParens("b)") == "b)" by {
      StripParensKeepsPrefix("b)", "");
      assert "b)" + "" == "b)";
    }
  }

  // ---------------------------------------------------------------------
  // trim, toUpperCase, and `.replace(/\s+/g, '')`

  /** Every character of `s` is whitespace. */
  predicate AllSpace(s: string) {
    forall i :: 0 <= i < |s| ==> IsSpace(s[i])
  }

  lemma AllSpaceCons(c: char, a: string)
    requires IsSpace(c) && AllSpace(a)
    ensures AllSpace([c] + a)
  {
    assert forall i :: 1 <= i < |a| + 1 ==> ([c] + a)[i] == a[i - 1];
  }

  lemma AllSpaceSnoc(a: string, c: char)
    requires AllSpace(a) && IsSpace(c)
    ensures AllSpace(a + [c])
  {
    assert forall i :: 0 <= i < |a| ==> (a + [c])[i] == a[i];
  }

  /** Drops the leading whitespace, and only that. */
  function TrimStart(s: string): (r: string)
    ensures |r| <= |s| && r == s[|s| - |r|..]
    ensures AllSpace(s[..|s| - |r|])
    ensures r != [] ==> !IsSpace(r[0])
  {
    if s != [] && IsSpace(s[0]) then
      var tail := s[1..];
      var r := TrimStart(tail);
      assert tail[|tail| - |r|..] == s[|s| - |r|..];
      AllSpaceCons(s[0], tail[..|tail| - |r|]);
      assert s[..|s| - |r|] == [s[0]] + tail[..|tail| - |r|];
      r
    else
      assert s[..0] == [];
      s
  }

  /** Drops the trailing whitespace, and only that. */
  function TrimEnd(s: string): (r: string)
    ensures |r| <= |s| && r == s[..|r|]
    ensures AllSpace(s[|r|..])
    ensures r != [] ==> !IsSpace(r[|r| - 1])
  {
    if s != [] && IsSpace(s[|s| - 1]) then
      var init := s[..|s| - 1];
      var r := TrimEnd(init);
      assert init[..|r|] == s[..|r|];
      AllSpaceSnoc(init[|r|..], s[|s| - 1]);
      assert s[|r|..] == init[|r|..] + [s[|s| - 1]];
      r
    else
      assert s[|s|..] == [];
      s
  }

  /** `String.prototype.trim`. */
  function Trim(s: string): (r: string)
    ensures r != [] ==> !IsSpace(r[0]) && !IsSpace(r[|r| - 1])
  {
    TrimEnd(TrimStart(s))
  }

  /** What `Trim` keeps is the text between a run of leading and a run of
      trailing whitespace. */
  lemma TrimIsSlice(s: string)
    ensures exists a, b :: 0 <= a <= b <= |s| && Trim(s) == s[a..b]
                           && AllSpace(s[..a]) && AllSpace(s[b..])
  {
    var t := TrimStart(s);
    var a := |s| - |t|;
    var r := TrimEnd(t);
    var b := a + |r|;
    assert r == s[a..b];
    assert s[b..] == t[|r|..];
  }

  function UpperChar(c: char): (r: char)
    ensures IsSpace(r) == IsSpace(c)
  {
    if 'a' <= c <= 'z' then (c as int - 'a' as int + 'A' as int) as char else c
  }

  function ToUpper(s: string): (r: string)
    ensures |r| == |s|
    ensures forall i :: 0 <= i < |s| ==> r[i] == UpperChar(s[i])
  {
    if s == [] then [] else [UpperChar(s[0])] + ToUpper(s[1..])
  }

  function RemoveSpaces(s: string): (r: string)
    ensures forall i :: 0 <= i < |r| ==> !IsSpace(r[i])
    ensures s != [] && !IsSpace(s[0]) ==> r != []
  {
    if s == [] then []
    else if IsSpace(s[0]) then RemoveSpaces(s[1..])
    else [s[0]] + RemoveSpaces(s[1..])
  }

  // ---------------------------------------------------------------------
  // WORD_RE = /([A-Z])([+\-]?\d*\.?\d+)/g

  /** The end of the run of digits that starts at `i`. */
  function DigitsEnd(s: string, i: nat): (r: nat)
    requires i <= |s|
    ensures i <= r <= |s|
    ensures forall k :: i <= k < r ==> IsDigit(s[k])
    ensures r == |s| || !IsDigit(s[r])
    decreases |s| - i
  {
    if i < |s| && IsDigit(s[i]) then DigitsEnd(s, i + 1) else i
  }

  /** Where the leftmost-longest match of the word pattern that starts at
      `p` ends, if one starts there. The greedy `\d*\.?\d+` takes a fraction
      when a `.` is followed by a digit, and otherwise backtracks to the
      integer digits alone. */
  function WordEnd(s: string, p: nat): (r: Option<nat>)
    requires p <= |s|
    ensures r.Some? ==> p + 2 <= r.value <= |s| && IsUpperLetter(s[p])
  {
    if p == |s| || !IsUpperLetter(s[p]) then None
    else
      var q := NumberStart(s, p);
      var d := DigitsEnd(s, q);
      if d + 1 < |s| && s[d] == '.' && IsDigit(s[d + 1]) then Some(DigitsEnd(s, d + 1))
      else if d > q then Some(d)
      else None
  }

  /** Where the digits of the word whose letter is at `p` start: after the
      letter, and after a sign if there is one. */
  function NumberStart(s: string, p: nat): (q: nat)
    requires p < |s|
    ensures p + 1 <= q <= |s| && q <= p + 2
  {
    if p + 1 < |s| && (s[p + 1] == '+' || s[p + 1] == '-') then p + 2 else p + 1
  }

  predicate AllDigits(u: string) {
    forall i :: 0 <= i < |u| ==> IsDigit(u[i])
  }

  /** Text matching `\d*\.?\d+`: digits, or digits, a `.` and at least one
      digit. */
  predicate IsUnsignedText(u: string) {
    || (u != [] && AllDigits(u))
    || (exists k :: 0 <= k < |u| - 1 && u[k] == '.' && AllDigits(u[..k]) && AllDigits(u[k + 1..]))
  }

  /** Text matching the word pattern `[A-Z][+-]?\d*\.?\d+`. */
  predicate IsWordText(t: string) {
    && |t| >= 2 && IsUpperLetter(t[0])
    && if t[1] == '+' || t[1] == '-' then IsUnsignedText(t[2..]) else IsUnsignedText(t[1..])
  }

  /** Digits from `i` to `e` end no later than the run of digits at `i`. */
  lemma DigitsEndBound(s: string, i: nat, e: nat)
    requires i <= e <= |s| && AllDigits(s[i..e])
    ensures e <= DigitsEnd(s, i)
  {
    assert forall k :: i <= k < e ==> s[i..e][k - i] == s[k];
  }

  /** The run of digits at `i` is all digits. */
  lemma DigitsEndAll(s: string, i: nat, e: nat)
    requires i <= |s| && i <= e <= DigitsEnd(s, i)
    ensures AllDigits(s[i..e])
  {
    forall k | 0 <= k < e - i ensures IsDigit(s[i..e][k]) {
      assert s[i..e][k] == s[i + k];
    }
  }

  /** The ends `e` for which `s[q..e]` is a number without sign: within the
      run of digits at `q`, or past a `.` right after that run, within the
      run of digits that follows. */
  lemma UnsignedEnds(s: string, q: nat, e: nat)
    requires q <= e <= |s|
    ensures var d := DigitsEnd(s, q);
            IsUnsignedText(s[q..e])
            <==> (q < e <= d) || (d < |s| && s[d] == '.' && d + 1 < e <= DigitsEnd(s, d + 1))
  {
    var d := DigitsEnd(s, q);
    if IsUnsignedText(s[q..e]) {
      UnsignedEndsOnly(s, q, e);
    }
    if (q < e <= d) || (d < |s| && s[d] == '.' && d + 1 < e <= DigitsEnd(s, d + 1)) {
      UnsignedEndsAll(s, q, e);
    }
  }

  /** A number without sign at `q` ends within one of the two runs. */
  lemma UnsignedEndsOnly(s: string, q: nat, e: nat)
    requires q <= e <= |s| && IsUnsignedText(s[q..e])
    ensures var d := DigitsEnd(s, q);
            (q < e <= d) || (d < |s| && s[d] == '.' && d + 1 < e <= DigitsEnd(s, d + 1))
  {
    var u := s[q..e];
    if u != [] && AllDigits(u) {
      DigitsEndBound(s, q, e);
    } else {
      var k :| 0 <= k < |u| - 1 && u[k] == '.' && AllDigits(u[..k]) && AllDigits(u[k + 1..]);
      FractionAt(s, q, e, k);
    }
  }

  lemma PrefixOfSlice(s: string, a: nat, b: nat, j: nat)
    requires a <= b <= |s| && j <= b - a
    ensures s[a..b][..j] == s[a..a + j]
  {
    assert forall k :: 0 <= k < j ==> s[a..b][..j][k] == s[a + k];
  }

  lemma SuffixOfSlice(s: string, a: nat, b: nat, i: nat)
    requires a <= b <= |s| && i <= b - a
    ensures s[a..b][i..] == s[a + i..b]
  {
    assert forall k :: 0 <= k < b - a - i ==> s[a..b][i..][k] == s[a + i + k];
  }

  /** The `.` at offset `k` of a fraction `s[q..e]` is where the run of
      digits at `q` stops. */
  lemma FractionAt(s: string, q: nat, e: nat, k: nat)
    requires q <= e <= |s| && k < e - q - 1 && s[q..e][k] == '.'
    requires AllDigits(s[q..e][..k]) && AllDigits(s[q..e][k + 1..])
    ensures q + k == DigitsEnd(s, q) && e <= DigitsEnd(s, q + k + 1)
  {
    PrefixOfSlice(s, q, e, k);
    SuffixOfSlice(s, q, e, k + 1);
    FractionEnds(s, q, q + k, e);
  }

  /** Digits from `q`, a `.` at `m`, and digits up to `e`: the `.` is where
      the run at `q` stops, and `e` is within the run after it. */
  lemma FractionEnds(s: string, q: nat, m: nat, e: nat)
    requires q <= m && m + 1 < e <= |s| && s[m] == '.'
    requires AllDigits(s[q..m]) && AllDigits(s[m + 1..e])
    ensures m == DigitsEnd(s, q) && e <= DigitsEnd(s, m + 1)
  {
    DigitsEndBound(s, q, m);
    DigitsEndBound(s, m + 1, e);
  }

  /** Every end within one of the two runs closes a number without sign. */
  lemma UnsignedEndsAll(s: string, q: nat, e: nat)
    requires q <= e <= |s|
    requires var d := DigitsEnd(s, q);
             (q < e <= d) || (d < |s| && s[d] == '.' && d + 1 < e <= DigitsEnd(s, d + 1))
    ensures IsUnsignedText(s[q..e])
  {
    var d := DigitsEnd(s, q);
    var u := s[q..e];
    if e <= d {
      DigitsEndAll(s, q, e);
    } else {
      var k := d - q;
      DigitsEndAll(s, q, d);
      DigitsEndAll(s, d + 1, e);
      PrefixOfSlice(s, q, e, k);
      SuffixOfSlice(s, q, e, k + 1);
      assert u[k] == '.';
    }
  }

  /** `WordEnd` is `WORD_RE` anchored at `p`: when it answers, the text up to
      its end matches the word pattern and no longer text from `p` does;
      when it does not, no text from `p` matches. Backtracking in the
      pattern finds exactly this longest match. */
  lemma WordEndIsLongestMatch(s: string, p: nat)
    requires p <= |s|
    ensures WordEnd(s, p).Some? ==>
              && IsWordText(s[p..WordEnd(s, p).value])
              && forall e :: WordEnd(s, p).value < e <= |s| ==> !IsWordText(s[p..e])
    ensures WordEnd(s, p).None? ==> forall e :: p <= e <= |s| ==> !IsWordText(s[p..e])
  {
    forall e | p <= e <= |s|
      ensures IsWordText(s[p..e]) <==> p < |s| && IsUpperLetter(s[p]) && p + 2 <= e && WordMatchEnd(s, p, e)
    {
      if p < |s| && IsUpperLetter(s[p]) && p + 2 <= e {
        WordTextIffUnsigned(s, p, e);
        UnsignedEnds(s, NumberStart(s, p), e);
      }
    }
    if WordEnd(s, p).Some? {
      var q := NumberStart(s, p);
      var d := DigitsEnd(s, q);
      if d + 1 < |s| && s[d] == '.' && IsDigit(s[d + 1]) {
        assert DigitsEnd(s, d + 1) > d + 1;
      }
    }
  }

  /** The match ends `UnsignedEnds` allows after the sign of the word at
      `p`. */
  predicate WordMatchEnd(s: string, p: nat, e: nat)
    requires p < |s| && e <= |s|
  {
    var q := NumberStart(s, p);
    var d := DigitsEnd(s, q);
    (q < e <= d) || (d < |s| && s[d] == '.' && d + 1 < e <= DigitsEnd(s, d + 1))
  }

  /** The letter at `p` and the optional sign are consumed; the rest of the
      word must be a number without sign. */
  lemma WordTextIffUnsigned(s: string, p: nat, e: nat)
    requires p + 2 <= e <= |s| && IsUpperLetter(s[p])
    ensures NumberStart(s, p) <= e
    ensures IsWordText(s[p..e]) <==> IsUnsignedText(s[NumberStart(s, p)..e])
  {
    var t := s[p..e];
    assert t[0] == s[p] && t[1] == s[p + 1];
    assert t[1..] == s[p + 1..e] && t[2..] == s[p + 2..e];
  }

  /** Where the next match starts when the scan resumes at `c`. */
  function NextMatch(s: string, c: nat): (r: Option<nat>)
    requires c <= |s|
    ensures r.Some? ==> c <= r.value < |s| && WordEnd(s, r.value).Some?
    ensures r.Some? ==> forall q :: c <= q < r.value ==> WordEnd(s, q).None?
    ensures r.None? ==> forall q :: c <= q <= |s| ==> WordEnd(s, q).None?
    decreases |s| - c
  {
    if c == |s| then None
    else if WordEnd(s, c).Some? then Some(c)
    else NextMatch(s, c + 1)
  }

  // ---------------------------------------------------------------------
  // Number(match[2]), exactly

  function DigitValue(c: char): nat {
    if IsDigit(c) then c as int - '0' as int else 0
  }

  function DigitsValue(ds: string): nat {
    if ds == [] then 0 else DigitsValue(ds[..|ds| - 1]) * 10 + DigitValue(ds[|ds| - 1])
  }

  function Pow10(k: nat): (r: nat)
    ensures r >= 1
  {
    if k == 0 then 1 else 10 * Pow10(k - 1)
  }

  /** The index of the first `c` in `t`, or `|t|` when there is none. */
  function IndexOf(t: string, c: char): (r: nat)
    ensures r <= |t|
    ensures r < |t| ==> t[r] == c
    ensures c !in t[..r]
    ensures forall i :: 0 <= i < r ==> t[i] != c
  {
    if t == [] then 0
    else if t[0] == c then 0
    else
      var k := IndexOf(t[1..], c);
      assert t[..k + 1] == [t[0]] + t[1..][..k];
      1 + k
  }

  /** The exact rational value of digits, an optional `.` and fraction digits. */
  function UnsignedValue(t: string): real {
    var k := IndexOf(t, '.');
    DigitsValue(t[..k]) as real
      + (if k < |t| then DigitsValue(t[k + 1..]) as real / Pow10(|t| - k - 1) as real else 0.0)
  }

  /** The value JavaScript's `Number` gives a text of the form `[+-]?\d*\.?\d+`. */
  function DecimalValue(t: string): real {
    if t != [] && t[0] == '-' then -UnsignedValue(t[1..])
    else if t != [] && t[0] == '+' then UnsignedValue(t[1..])
    else UnsignedValue(t)
  }

  lemma {:induction false} DigitsValueBound(ds: string)
    requires AllDigits(ds)
    ensures DigitsValue(ds) < Pow10(|ds|)
    decreases |ds|
  {
    if ds != [] {
      var init := ds[..|ds| - 1];
      assert forall i :: 0 <= i < |init| ==> init[i] == ds[i];
      DigitsValueBound(init);
      assert DigitValue(ds[|ds| - 1]) <= 9;
    }
  }

  /** With only digits before `k` and a `.` or the end at `k`, the first
      `.` is at `k`. */
  lemma IndexOfDot(u: string, k: nat)
    requires k <= |u| && AllDigits(u[..k])
    requires k == |u| || u[k] == '.'
    ensures IndexOf(u, '.') == k
  {
    var r := IndexOf(u, '.');
    assert forall i :: 0 <= i < k ==> u[..k][i] == u[i];
  }

  lemma FractionBelowOne(a: real, b: real)
    requires 0.0 <= a < b
    ensures 0.0 <= a / b < 1.0
  {
  }

  /** The value of a number without sign whose `.` (or end) is at `k`: its
      whole part is the digits before `k`, and the fraction after `k` adds
      less than one. */
  lemma UnsignedValueParts(u: string, k: nat)
    requires k <= |u| && AllDigits(u[..k])
    requires k == |u| || (u[k] == '.' && AllDigits(u[k + 1..]))
    ensures DigitsValue(u[..k]) as real <= UnsignedValue(u) < DigitsValue(u[..k]) as real + 1.0
  {
    IndexOfDot(u, k);
    if k < |u| {
      var f := u[k + 1..];
      DigitsValueBound(f);
      FractionBelowOne(DigitsValue(f) as real, Pow10(|f|) as real);
    }
  }

  /** A leading `-` negates the value of the rest and a leading `+` keeps it. */
  lemma DecimalValueSign(u: string)
    requires u == [] || (u[0] != '-' && u[0] != '+')
    ensures DecimalValue("-" + u) == -DecimalValue(u)
    ensures DecimalValue("+" + u) == DecimalValue(u)
  {
    assert ("-" + u)[1..] == u && ("+" + u)[1..] == u;
  }

  /** A word cut at a `.` that no digit follows, a word whose digits
      before the `.` are left out, and a letter with no number. */
  lemma WordEndExamples()
    ensures WordEnd("X1.F", 0) == Some(2)
    ensures WordEnd("G-.5", 0) == Some(4)
    ensures WordEnd("X.", 0).None?
  {
    assert DigitsEnd("X1.F", 2) == 2;
    assert DigitsEnd("X1.F", 1) == 2;
    assert DigitsEnd("G-.5", 2) == 2;
    assert DigitsEnd("G-.5", 4) == 4;
    assert DigitsEnd("G-.5", 3) == 4;
    assert DigitsEnd("X.", 1) == 1;
  }

  lemma DigitsValueExample()
    ensures DigitsValue("5") == 5
    ensures DigitsValue("12") == 12
    ensures DigitsValue("25") == 25
  {
    assert "5"[..0] == "" && "12"[..1] == "1" && "25"[..1] == "2";
    assert "1"[..0] == "" && "2"[..0] == "";
  }

  /** A number with no digits before its `.`, and one with both parts. */
  lemma DecimalValueExamples()
    ensures DecimalValue("-.5") == -0.5
    ensures DecimalValue("12.25") == 12.25
  {
    DigitsValueExample();
    IndexOfDot(".5", 0);
    IndexOfDot("12.25", 2);
    assert "12.25"[..2] == "12" && "12.25"[3..] == "25";
    assert ".5"[..0] == "" && ".5"[1..] == "5";
    assert "-.5"[1..] == ".5";
    assert Pow10(2) == 100 && Pow10(1) == 10;
  }

  // ---------------------------------------------------------------------
  // The scan loop of parseBlock

  function GapError(gap: string): string {
    "Unexpected token near '" + gap + "'"
  }

  function TailError(tail: string): string {
    "Cannot parse tail '" + tail + "'"
  }

  datatype Scan = Scan(words: seq<Word>, errors: seq<string>)

  /** The concatenation of the words' raw texts. */
  function RawText(words: seq<Word>): string {
    if words == [] then [] else words[0].raw + RawText(words[1..])
  }

  /** `WORD_RE.exec` resumed at `cursor`: each match is preceded by an error
      for the unmatched gap before it, if any, and the unmatched tail adds a
      last error. */
  function ScanFrom(s: string, cursor: nat): (r: Scan)
    requires cursor <= |s|
    ensures forall i :: 0 <= i < |r.words| ==>
              IsUpperLetter(r.words[i].letter) && |r.words[i].raw| >= 2
              && r.words[i].raw[0] == r.words[i].letter
              && r.words[i].value == DecimalValue(r.words[i].raw[1..])
    ensures |r.errors| <= |r.words| + 1
    decreases |s| - cursor
  {
    match NextMatch(s, cursor)
    case None =>
      Scan([], if cursor != |s| then [TailError(s[cursor..])] else [])
    case Some(p) =>
      var e := WordEnd(s, p).value;
      var rest := ScanFrom(s, e);
      var w := Word(s[p], DecimalValue(s[p + 1..e]), s[p..e]);
      assert w.raw[1..] == s[p + 1..e];
      Scan([w] + rest.words, (if p != cursor then [GapError(s[cursor..p])] else []) + rest.errors)
  }

  /** When no match is left, the scan ends: no more words, and one
      `Cannot parse tail` error holding the rest of the line if any is
      left. */
  lemma ScanTail(s: string, cursor: nat)
    requires cursor <= |s| && NextMatch(s, cursor).None?
    ensures ScanFrom(s, cursor).words == []
    ensures ScanFrom(s, cursor).errors == if cursor < |s| then [TailError(s[cursor..])] else []
  {
  }

  /** One step of the scan: a match at `p` contributes its word, after an
      error for the gap before it if there is one. */
  lemma ScanStep(s: string, cursor: nat, p: nat)
    requires cursor <= |s| && NextMatch(s, cursor) == Some(p)
    ensures WordEnd(s, p).Some? && p < WordEnd(s, p).value <= |s|
    ensures var e := WordEnd(s, p).value;
            var r := ScanFrom(s, cursor);
            var rest := ScanFrom(s, e);
            r.words[1..] == rest.words
            && RawText(r.words) == s[p..e] + RawText(rest.words)
            && (p == cursor ==> r.errors == rest.errors)
            && (p != cursor ==> |r.errors| == |rest.errors| + 1)
  {
    var e := WordEnd(s, p).value;
    var r := ScanFrom(s, cursor);
    var rest := ScanFrom(s, e);
    assert r.words[0].raw == s[p..e];
    assert r.words[1..] == rest.words;
    if p != cursor {
      assert |r.errors| == 1 + |rest.errors|;
    }
  }

  lemma {:induction false} RawTextBound(s: string, cursor: nat)
    requires cursor <= |s|
    ensures |RawText(ScanFrom(s, cursor).words)| <= |s| - cursor
    decreases |s| - cursor
  {
    match NextMatch(s, cursor)
    case None =>
    case Some(p) =>
      var e := WordEnd(s, p).value;
      RawTextBound(s, e);
      var r := ScanFrom(s, cursor);
      assert r.words[1..] == ScanFrom(s, e).words;
  }

  lemma {:induction false} NoErrorsCovers(s: string, cursor: nat)
    requires cursor <= |s|
    requires ScanFrom(s, cursor).errors == []
    ensures RawText(ScanFrom(s, cursor).words) == s[cursor..]
    decreases |s| - cursor
  {
    match NextMatch(s, cursor)
    case None =>
    case Some(p) =>
      var e := WordEnd(s, p).value;
      var r, rest := ScanFrom(s, cursor), ScanFrom(s, e);
      ScanStep(s, cursor, p);
      assert p == cursor && rest.errors == [];
      NoErrorsCovers(s, e);
      assert RawText(r.words) == s[cursor..e] + s[e..];
      SliceJoin(s, cursor, e);
  }

  lemma SliceJoin(s: string, i: nat, j: nat)
    requires i <= j <= |s|
    ensures s[i..j] + s[j..] == s[i..]
  {
  }

  lemma {:induction false} ErrorsLeaveGap(s: string, cursor: nat)
    requires cursor <= |s|
    requires ScanFrom(s, cursor).errors != []
    ensures |RawText(ScanFrom(s, cursor).words)| < |s| - cursor
    decreases |s| - cursor
  {
    match NextMatch(s, cursor)
    case None =>
    case Some(p) =>
      var e := WordEnd(s, p).value;
      ScanStep(s, cursor, p);
      if p == cursor {
        ErrorsLeaveGap(s, e);
      } else {
        RawTextBound(s, e);
      }
  }

  /** The scan reports no error exactly when the words, read back to back,
      spell out the whole remaining text. */
  lemma ScanCoversIffNoErrors(s: string, cursor: nat)
    requires cursor <= |s|
    ensures ScanFrom(s, cursor).errors == [] <==> RawText(ScanFrom(s, cursor).words) == s[cursor..]
  {
    if ScanFrom(s, cursor).errors == [] {
      NoErrorsCovers(s, cursor);
    } else {
      ErrorsLeaveGap(s, cursor);
    }
  }

  // ---------------------------------------------------------------------
  // parseBlock and parseProgram

  function ParseBlock(rawLine: string, lineNumber: nat): (b: Block)
    ensures b.lineNumber == lineNumber && b.raw == rawLine
    ensures b.cleaned == ToUpper(Trim(StripComments(rawLine)))
    ensures b.words == [] && b.errors == [] <==> b.cleaned == []
    ensures forall i :: 0 <= i < |b.words| ==> IsUpperLetter(b.words[i].letter)
    ensures b.errors == [] <==> RawText(b.words) == RemoveSpaces(b.cleaned)
  {
    var cleaned := ToUpper(Trim(StripComments(rawLine)));
    if cleaned == [] then Block(lineNumber, rawLine, cleaned, [], [])
    else
      var compact := RemoveSpaces(cleaned);
      assert compact != [];
      var r := ScanFrom(compact, 0);
      ScanCoversIffNoErrors(compact, 0);
      assert compact[0..] == compact;
      Block(lineNumber, rawLine, cleaned, r.words, r.errors)
  }

  /** `split('\n')`. */
  function SplitNewlines(s: string): (r: seq<string>)
    ensures |r| >= 1
    ensures forall i :: 0 <= i < |r| ==> '\n' !in r[i]
  {
    if s == [] then [[]]
    else if s[0] == '\n' then [[]] + SplitNewlines(s[1..])
    else
      var rest := SplitNewlines(s[1..]);
      [[s[0]] + rest[0]] + rest[1..]
  }

  function CountNewlines(s: string): nat {
    if s == [] then 0 else (if s[0] == '\n' then 1 else 0) + CountNewlines(s[1..])
  }

  /** `lines.join('\n')`. */
  function JoinNewlines(lines: seq<string>): string
    requires |lines| >= 1
  {
    if |lines| == 1 then lines[0] else lines[0] + "\n" + JoinNewlines(lines[1..])
  }

  lemma {:induction false} SplitNewlinesCount(s: string)
    ensures |SplitNewlines(s)| == CountNewlines(s) + 1
  {
    if s != [] {
      SplitNewlinesCount(s[1..]);
    }
  }

  lemma {:induction false} SplitThenJoin(s: string)
    ensures JoinNewlines(SplitNewlines(s)) == s
  {
    if s == [] {
    } else if s[0] == '\n' {
      SplitThenJoin(s[1..]);
      JoinAfterNewline(SplitNewlines(s[1..]));
      assert s == "\n" + s[1..];
    } else {
      SplitThenJoin(s[1..]);
      var rest := SplitNewlines(s[1..]);
      assert [rest[0]] + rest[1..] == rest;
      JoinConsChar(s[0], rest[0], rest[1..]);
      assert s == [s[0]] + s[1..];
    }
  }

  /** An empty first line joins to a leading line feed. */
  lemma JoinAfterNewline(lines: seq<string>)
    requires |lines| >= 1
    ensures JoinNewlines([[]] + lines) == "\n" + JoinNewlines(lines)
  {
    assert ([[]] + lines)[1..] == lines;
  }

  /** A character in front of the first line is a character in front of
      the joined text. */
  lemma JoinConsChar(c: char, first: string, rest: seq<string>)
    ensures JoinNewlines([[c] + first] + rest) == [c] + JoinNewlines([first] + rest)
  {
    if rest != [] {
      var tail := JoinNewlines(rest);
      assert ([[c] + first] + rest)[1..] == rest;
      assert ([first] + rest)[1..] == rest;
      assert ([c] + first) + "\n" + tail == [c] + (first + "\n" + tail);
    }
  }

  /** Splitting text whose first line has no line feed puts that text in
      front of the first piece. */
  lemma {:induction false} SplitPrefix(a: string, t: string)
    requires '\n' !in a
    ensures SplitNewlines(a + t) == [a + SplitNewlines(t)[0]] + SplitNewlines(t)[1..]
  {
    var st := SplitNewlines(t);
    if a != [] {
      assert (a + t)[0] == a[0] && a[0] != '\n';
      assert (a + t)[1..] == a[1..] + t;
      assert '\n' !in a[1..];
      SplitPrefix(a[1..], t);
      var rest := SplitNewlines(a[1..] + t);
      assert rest == [a[1..] + st[0]] + st[1..];
      assert SplitNewlines(a + t) == [[a[0]] + rest[0]] + rest[1..];
      assert [a[0]] + (a[1..] + st[0]) == a + st[0];
      assert rest[1..] == st[1..];
    } else {
      assert a + t == t;
      assert a + st[0] == st[0];
      assert [st[0]] + st[1..] == st;
    }
  }

  lemma {:induction false} JoinThenSplit(lines: seq<string>)
    requires |lines| >= 1
    requires forall i :: 0 <= i < |lines| ==> '\n' !in lines[i]
    ensures SplitNewlines(JoinNewlines(lines)) == lines
  {
    if |lines| == 1 {
      SplitPrefix(lines[0], []);
      assert lines[0] + [] == lines[0];
    } else {
      JoinThenSplit(lines[1..]);
      var rest := JoinNewlines(lines[1..]);
      assert lines[0] + "\n" + rest == lines[0] + ("\n" + rest);
      SplitPrefix(lines[0], "\n" + rest);
      assert ("\n" + rest)[1..] == rest;
      assert ("\n" + rest)[0] == '\n';
      assert SplitNewlines("\n" + rest) == [[]] + lines[1..];
      assert lines[0] + [] == lines[0];
      assert lines == [lines[0]] + lines[1..];
    }
  }

  /** A line with the carriage return that ends it, if any, removed. */
  function DropCarriageReturn(line: string): (r: string)
    ensures r + "\r" == line || (r == line && (line == [] || line[|line| - 1] != '\r'))
    ensures '\n' !in line ==> '\n' !in r
  {
    if line != [] && line[|line| - 1] == '\r' then
      assert line[..|line| - 1] + "\r" == line;
      line[..|line| - 1]
    else line
  }

  /** `source.split(/\r?\n/)`: the pieces between line feeds, each but the
      last losing a carriage return that ends it, since the separator takes
      a `\r` right before a `\n` with it. */
  function Lines(source: string): (r: seq<string>)
    ensures |r| == |SplitNewlines(source)| == CountNewlines(source) + 1
    ensures forall i :: 0 <= i < |r| ==> '\n' !in r[i]
    ensures forall i :: 0 <= i < |r| - 1 ==>
              || r[i] + "\r" == SplitNewlines(source)[i]
              || (r[i] == SplitNewlines(source)[i] && (r[i] == [] || r[i][|r[i]| - 1] != '\r'))
    ensures r[|r| - 1] == SplitNewlines(source)[|r| - 1]
  {
    var pieces := SplitNewlines(source);
    SplitNewlinesCount(source);
    seq(|pieces|, i requires 0 <= i < |pieces| =>
      if i < |pieces| - 1 then DropCarriageReturn(pieces[i]) else pieces[i])
  }

  /** `parseProgram`: one block per line, that is, one more than the line
      feeds. */
  function ParseProgram(source: string): (blocks: seq<Block>)
    ensures |blocks| == CountNewlines(source) + 1
    ensures BlocksOfLines(blocks, Lines(source))
  {
    ParseLines(Lines(source))
  }

  /** Block `i` is line `i` parsed: numbered `i + 1`, keeping the line as
      its raw text and the line without comments, trimmed and upper-cased as
      its cleaned text. */
  predicate BlocksOfLines(blocks: seq<Block>, lines: seq<string>) {
    && |blocks| == |lines|
    && forall i :: 0 <= i < |blocks| ==>
         blocks[i].lineNumber == i + 1 && blocks[i].raw == lines[i]
         && blocks[i].cleaned == ToUpper(Trim(StripComments(lines[i])))
  }

  /** One block per line, numbered from 1. */
  function ParseLines(lines: seq<string>): (blocks: seq<Block>)
    ensures BlocksOfLines(blocks, lines)
  {
    seq(|lines|, i requires 0 <= i < |lines| => ParseBlock(lines[i], i + 1))
  }
}
