/** Characters and strings as JavaScript sees them in the extraction engine:
    the character classes `\d`, `\w`, `\s`, `\b`, ASCII case folding (what the
    `i` flag does when the `u` flag is absent), `trim`, `split`, `join`, and
    first-occurrence `replace` with a string pattern.
 */
module Text {
  import opened Scan

  predicate IsDigit(c: char) { '0' <= c <= '9' }
  predicate IsUpper(c: char) { 'A' <= c <= 'Z' }
  predicate IsLower(c: char) { 'a' <= c <= 'z' }
  predicate IsLetter(c: char) { IsUpper(c) || IsLower(c) }
  predicate IsAlnum(c: char) { IsLetter(c) || IsDigit(c) }

  /** `\w`: without the `u` flag it is ASCII only, also under `i`. */
  predicate IsWordChar(c: char) { IsAlnum(c) || c == '_' }

  /** `\s`: the WhiteSpace and LineTerminator characters of ECMAScript; `trim`
      removes exactly these. */
  predicate IsSpace(c: char) {
    c == ' ' || c == '\t' || c == '\n' || c == '\U{000B}' || c == '\U{000C}' || c == '\r'
    || c == '\U{00A0}' || c == '\U{1680}' || ('\U{2000}' <= c <= '\U{200A}')
    || c == '\U{2028}' || c == '\U{2029}' || c == '\U{202F}' || c == '\U{205F}'
    || c == '\U{3000}' || c == '\U{FEFF}'
  }

  /** The characters `.` does not match. */
  predicate IsLineTerminator(c: char) {
    c == '\n' || c == '\r' || c == '\U{2028}' || c == '\U{2029}'
  }

  /** The characters `.` matches. */
  predicate NotLineTerminator(c: char) { !IsLineTerminator(c) }

  lemma LineTerminatorIsSpace(c: char)
    ensures IsLineTerminator(c) ==> IsSpace(c)
  {}

  function Lower(c: char): (r: char)
    ensures IsUpper(c) ==> IsLower(r) && r as int == c as int + 32
    ensures !IsUpper(c) ==> r == c
  {
    if IsUpper(c) then (c as int + 32) as char else c
  }

  function Upper(c: char): (r: char)
    ensures IsLower(c) ==> IsUpper(r) && r as int + 32 == c as int
    ensures !IsLower(c) ==> r == c
  {
    if IsLower(c) then (c as int - 32) as char else c
  }

  /** `\b` at position `i`: a word character on exactly one side. */
  predicate IsBoundary(s: string, i: nat)
    requires i <= |s|
  {
    (i > 0 && IsWordChar(s[i - 1])) != (i < |s| && IsWordChar(s[i]))
  }

  /** The literal `lit` occurs at position `i` of `s`. */
  predicate At(s: string, i: nat, lit: string) {
    i + |lit| <= |s| && s[i..i + |lit|] == lit
  }

  /** The literal `lit` occurs at position `i` of `s` up to ASCII case. */
  predicate AtCI(s: string, i: nat, lit: string) {
    i + |lit| <= |s| && forall k :: 0 <= k < |lit| ==> Lower(s[i + k]) == Lower(lit[k])
  }

  predicate ContainsCI(s: string, lit: string) {
    exists i :: 0 <= i <= |s| && AtCI(s, i, lit)
  }

  predicate StartsWith(s: string, prefix: string) { At(s, 0, prefix) }

  predicate EndsWith(s: string, suffix: string) {
    |suffix| <= |s| && s[|s| - |suffix|..] == suffix
  }

  /** The end of the longest run of characters in `cls` that starts at `i`. */
  function RunEnd(s: string, i: nat, cls: char -> bool): (j: nat)
    requires i <= |s|
    ensures i <= j <= |s|
    ensures forall k :: i <= k < j ==> cls(s[k])
    ensures j < |s| ==> !cls(s[j])
    decreases |s| - i
  {
    if i < |s| && cls(s[i]) then RunEnd(s, i + 1, cls) else i
  }

  /** The end found by `RunEnd` is the only end a run can have. */
  lemma RunEndUnique(s: string, i: nat, e: nat, cls: char -> bool)
    requires i <= e <= |s|
    requires forall k :: i <= k < e ==> cls(s[k])
    requires e < |s| ==> !cls(s[e])
    ensures RunEnd(s, i, cls) == e
  {
    var j := RunEnd(s, i, cls);
    if j < e { assert false; }
    if j > e { assert false; }
  }

  /** A run of `cls` over the text `a` placed at `i` ends where `a` ends,
      when the character after `a` is not in `cls`. */
  lemma RunOver(s: string, i: nat, a: string, cls: char -> bool)
    requires i + |a| <= |s| && s[i..i + |a|] == a
    requires forall c :: c in a ==> cls(c)
    requires i + |a| < |s| ==> !cls(s[i + |a|])
    ensures RunEnd(s, i, cls) == i + |a|
  {
    forall k | i <= k < i + |a| ensures cls(s[k]) {
      assert s[k] == a[k - i];
      assert a[k - i] in a;
    }
    RunEndUnique(s, i, i + |a|, cls);
  }

  /** Where a greedy `\s*` that starts at `i` stops. */
  function SkipSpaces(s: string, i: nat): (j: nat)
    requires i <= |s|
    ensures i <= j <= |s|
    ensures forall k :: i <= k < j ==> IsSpace(s[k])
    ensures j < |s| ==> !IsSpace(s[j])
  {
    RunEnd(s, i, IsSpace)
  }

  predicate AllSpace(s: string) { forall k :: 0 <= k < |s| ==> IsSpace(s[k]) }

  function TrimStart(s: string): (r: string)
    ensures |r| <= |s| && r == s[|s| - |r|..]
    ensures AllSpace(s[..|s| - |r|])
    ensures r != [] ==> !IsSpace(r[0])
  {
    if |s| > 0 && IsSpace(s[0]) then
      var r := TrimStart(s[1..]);
      SpaceBefore(s, r);
      r
    else s
  }

  lemma SpaceBefore(s: string, r: string)
    requires |s| > 0 && IsSpace(s[0])
    requires |r| <= |s| - 1 && r == s[1..][|s| - 1 - |r|..] && AllSpace(s[1..][..|s| - 1 - |r|])
    ensures r == s[|s| - |r|..] && AllSpace(s[..|s| - |r|])
  {
    forall k | 0 < k < |s| - |r| ensures IsSpace(s[k]) {
      assert s[k] == s[1..][..|s| - 1 - |r|][k - 1];
    }
  }

  function TrimEnd(s: string): (r: string)
    ensures |r| <= |s| && r == s[..|r|]
    ensures AllSpace(s[|r|..])
    ensures r != [] ==> !IsSpace(r[|r| - 1])
  {
    if |s| > 0 && IsSpace(s[|s| - 1]) then
      var r := TrimEnd(s[..|s| - 1]);
      SpaceAfter(s, r);
      r
    else s
  }

  lemma SpaceAfter(s: string, r: string)
    requires |s| > 0 && IsSpace(s[|s| - 1])
    requires |r| <= |s| - 1 && r == s[..|s| - 1][..|r|] && AllSpace(s[..|s| - 1][|r|..])
    ensures r == s[..|r|] && AllSpace(s[|r|..])
  {
    forall k | 0 <= k < |s| - |r| - 1 ensures IsSpace(s[|r|..][k]) {
      assert s[|r|..][k] == s[..|s| - 1][|r|..][k];
    }
  }

  /** `String.prototype.trim`: the slice of `s` left when the leading and
      trailing whitespace are cut off. */
  function Trim(s: string): (r: string)
    ensures exists i, j :: 0 <= i <= j <= |s| && r == s[i..j] && AllSpace(s[..i]) && AllSpace(s[j..])
    ensures r != [] ==> !IsSpace(r[0]) && !IsSpace(r[|r| - 1])
  {
    var a := TrimStart(s);
    var r := TrimEnd(a);
    TrimSlices(s, |s| - |a|, a, r);
    r
  }

  lemma TrimSlices(s: string, i: nat, a: string, r: string)
    requires i <= |s| && a == s[i..] && |r| <= |a| && r == a[..|r|]
    requires AllSpace(s[..i]) && AllSpace(a[|r|..])
    ensures r == s[i..i + |r|] && AllSpace(s[i + |r|..])
  {
    assert s[i + |r|..] == a[|r|..];
  }

  lemma {:induction false} TrimStartOfNonSpace(s: string)
    requires s == [] || !IsSpace(s[0])
    ensures TrimStart(s) == s
  {}

  lemma {:induction false} TrimEndOfNonSpace(s: string)
    requires s == [] || !IsSpace(s[|s| - 1])
    ensures TrimEnd(s) == s
  {}

  /** Trimming twice is trimming once. */
  lemma TrimIdempotent(s: string)
    ensures Trim(Trim(s)) == Trim(s)
  {
    var r := Trim(s);
    TrimStartOfNonSpace(r);
    TrimEndOfNonSpace(r);
  }

  /** `replace(/\s+/g, " ")`: every maximal run of whitespace becomes one space. */
  function CollapseSpaces(s: string): (r: string)
    ensures forall k :: 0 <= k < |r| && IsSpace(r[k]) ==> r[k] == ' '
    ensures forall k :: 0 <= k < |r| - 1 ==> !(IsSpace(r[k]) && IsSpace(r[k + 1]))
    ensures r != [] <==> s != []
    ensures r != [] ==> (IsSpace(r[0]) <==> IsSpace(s[0]))
    ensures |r| <= |s|
    decreases |s|
  {
    if s == [] then []
    else if IsSpace(s[0]) then
      var j := RunEnd(s, 0, IsSpace);
      [' '] + CollapseSpaces(s[j..])
    else [s[0]] + CollapseSpaces(s[1..])
  }

  /** Text without whitespace is left as it is by `CollapseSpaces`. */
  lemma {:induction false} CollapseWithoutSpaces(s: string)
    requires forall c :: c in s ==> !IsSpace(c)
    ensures CollapseSpaces(s) == s
    decreases |s|
  {
    if s != [] {
      assert s[0] in s;
      assert forall c :: c in s[1..] ==> c in s;
      CollapseWithoutSpaces(s[1..]);
      assert s == [s[0]] + s[1..];
    }
  }

  /** A literal cannot occur where its first letter does not, up to case. */
  lemma NotAtCI(s: string, i: nat, lit: string)
    requires |lit| > 0 && (i < |s| ==> Lower(s[i]) != Lower(lit[0]))
    ensures !AtCI(s, i, lit)
  {
    if i + |lit| <= |s| {
      assert Lower(s[i + 0]) != Lower(lit[0]);
    }
  }

  /** The pieces of `s` between the characters that satisfy `isSep`
      (`split` with a one-character separator, or a class of them). */
  function SplitWhere(s: string, isSep: char -> bool): (r: seq<string>)
    ensures |r| >= 1
    ensures forall k :: 0 <= k < |r| ==> forall c :: c in r[k] ==> !isSep(c)
    decreases |s|
  {
    if |s| == 0 then [""]
    else if isSep(s[0]) then [""] + SplitWhere(s[1..], isSep)
    else
      var rest := SplitWhere(s[1..], isSep);
      [[s[0]] + rest[0]] + rest[1..]
  }

  /** `s.split(sep)` for a one-character string `sep`. */
  function Split(s: string, sep: char): (r: seq<string>)
    ensures |r| >= 1
    ensures forall k :: 0 <= k < |r| ==> sep !in r[k]
  {
    SplitWhere(s, c => c == sep)
  }

  /** `xs.join(sep)`. */
  function Join(xs: seq<string>, sep: string): (r: string)
    decreases |xs|
  {
    if |xs| == 0 then ""
    else if |xs| == 1 then xs[0]
    else xs[0] + sep + Join(xs[1..], sep)
  }

  /** Each piece preceded by the separator. */
  function JoinTail(xs: seq<string>, sep: string): string
    decreases |xs|
  {
    if xs == [] then "" else sep + xs[0] + JoinTail(xs[1..], sep)
  }

  /** Joining puts the separator before every piece but the first. */
  lemma {:induction false} JoinCons(x: string, xs: seq<string>, sep: string)
    ensures Join([x] + xs, sep) == x + JoinTail(xs, sep)
    decreases |xs|
  {
    if xs != [] {
      assert ([x] + xs)[1..] == xs;
      JoinCons(xs[0], xs[1..], sep);
      assert [xs[0]] + xs[1..] == xs;
    }
  }

  lemma {:induction false} JoinSplitWhere(s: string, isSep: char -> bool, sep: char)
    requires forall c :: isSep(c) ==> c == sep
    ensures Join(SplitWhere(s, isSep), [sep]) == s
    decreases |s|
  {
    if |s| == 0 {
    } else {
      var rest := SplitWhere(s[1..], isSep);
      assert Join(rest, [sep]) == s[1..] by {
        JoinSplitWhere(s[1..], isSep, sep);
      }
      if isSep(s[0]) {
        assert SplitWhere(s, isSep) == [""] + rest;
        JoinEmptyHead(rest, sep);
      } else {
        var r := [[s[0]] + rest[0]] + rest[1..];
        assert Join(r, [sep]) == [s[0]] + Join(rest, [sep]) by {
          JoinHeadChar(r, sep);
          assert ([s[0]] + rest[0])[1..] == rest[0];
          assert [rest[0]] + r[1..] == rest;
        }
      }
    }
  }

  /** An empty first piece leaves only the separator in front. */
  lemma JoinEmptyHead(rest: seq<string>, sep: char)
    requires |rest| >= 1
    ensures Join([""] + rest, [sep]) == [sep] + Join(rest, [sep])
  {
    assert ([""] + rest)[1..] == rest;
  }

  /** Joining the pieces of a split with the same separator gives the text back. */
  lemma JoinSplit(s: string, sep: char)
    ensures Join(Split(s, sep), [sep]) == s
  {
    JoinSplitWhere(s, c => c == sep, sep);
  }

  /** A text without separators is one piece. */
  lemma {:induction false} SplitWhereNone(s: string, isSep: char -> bool)
    requires forall c :: c in s ==> !isSep(c)
    ensures SplitWhere(s, isSep) == [s]
    decreases |s|
  {
    if |s| > 0 {
      assert s[0] in s;
      assert forall c :: c in s[1..] ==> c in s;
      SplitWhereNone(s[1..], isSep);
      assert [s[0]] + s[1..] == s;
    }
  }

  /** Joining pieces whose first piece is not empty starts with that
      piece's first character. */
  lemma JoinHeadChar(xs: seq<string>, sep: char)
    requires |xs| >= 1 && |xs[0]| > 0
    ensures Join(xs, [sep]) == [xs[0][0]] + Join([xs[0][1..]] + xs[1..], [sep])
  {
    var x := xs[0];
    var t := JoinTail(xs[1..], [sep]);
    assert [x] + xs[1..] == xs;
    JoinCons(x, xs[1..], [sep]);
    JoinCons(x[1..], xs[1..], [sep]);
    HeadChar(x, t);
  }

  lemma HeadChar(x: string, t: string)
    requires |x| > 0
    ensures x + t == [x[0]] + (x[1..] + t)
  {
    assert x == [x[0]] + x[1..];
  }

  /** A leading character that is not a separator joins the first piece. */
  lemma SplitWhereCons(c: char, t: string, isSep: char -> bool)
    requires !isSep(c)
    ensures var rest := SplitWhere(t, isSep);
      SplitWhere([c] + t, isSep) == [[c] + rest[0]] + rest[1..]
  {
    assert ([c] + t)[1..] == t;
  }

  /** Splitting a join gives the pieces back, when the joining character is
      a separator and no piece holds a separator. */
  lemma {:induction false} SplitWhereJoin(xs: seq<string>, isSep: char -> bool, sep: char)
    requires |xs| >= 1 && isSep(sep)
    requires forall k :: 0 <= k < |xs| ==> forall c :: c in xs[k] ==> !isSep(c)
    ensures SplitWhere(Join(xs, [sep]), isSep) == xs
    decreases |xs|, |xs[0]|
  {
    var x := xs[0];
    if |x| > 0 {
      var ys := [x[1..]] + xs[1..];
      NoSepInRest(xs, isSep);
      var jy := Join(ys, [sep]);
      assert SplitWhere(jy, isSep) == ys by {
        SplitWhereJoin(ys, isSep, sep);
      }
      assert Join(xs, [sep]) == [x[0]] + jy by {
        JoinHeadChar(xs, sep);
      }
      assert SplitWhere([x[0]] + jy, isSep) == [[x[0]] + ys[0]] + ys[1..] by {
        assert x[0] in x;
        SplitWhereCons(x[0], jy, isSep);
      }
      assert [[x[0]] + ys[0]] + ys[1..] == xs by {
        assert [x[0]] + x[1..] == x;
        assert xs == [x] + xs[1..];
      }
    } else if |xs| == 1 {
      assert Join(xs, [sep]) == "";
    } else {
      var j := Join(xs, [sep]);
      assert j[1..] == Join(xs[1..], [sep]) by {
        assert j == [sep] + Join(xs[1..], [sep]);
      }
      SplitWhereJoin(xs[1..], isSep, sep);
      assert xs == [""] + xs[1..];
    }
  }

  /** Dropping the first character of the first piece keeps every piece free
      of separators. */
  lemma NoSepInRest(xs: seq<string>, isSep: char -> bool)
    requires |xs| >= 1 && |xs[0]| > 0
    requires forall k :: 0 <= k < |xs| ==> forall c :: c in xs[k] ==> !isSep(c)
    ensures var ys := [xs[0][1..]] + xs[1..];
      forall k :: 0 <= k < |ys| ==> forall c :: c in ys[k] ==> !isSep(c)
  {
    var ys := [xs[0][1..]] + xs[1..];
    forall k | 0 <= k < |ys| ensures forall c :: c in ys[k] ==> !isSep(c) {
      if k == 0 { assert forall c :: c in xs[0][1..] ==> c in xs[0]; } else { assert ys[k] == xs[k]; }
    }
  }

  /** Splitting a join gives the pieces back, when no piece holds the separator. */
  lemma SplitJoin(xs: seq<string>, sep: char)
    requires |xs| >= 1
    requires forall k :: 0 <= k < |xs| ==> sep !in xs[k]
    ensures Split(Join(xs, [sep]), sep) == xs
  {
    SplitWhereJoin(xs, c => c == sep, sep);
  }

  /** The first position at which `pat` occurs in `s` (`indexOf`). */
  function IndexOf(s: string, pat: string): (r: Option<nat>)
    ensures r.Some? ==> At(s, r.value, pat) && forall q :: 0 <= q < r.value ==> !At(s, q, pat)
    ensures r.None? ==> forall q :: 0 <= q <= |s| ==> !At(s, q, pat)
  {
    var f: nat -> Option<nat> := i => if At(s, i, pat) then Some(i) else None;
    assert forall q :: f(q).None? <==> !At(s, q, pat);
    var h := FirstHit(0, |s|, f);
    if h.Some? then Some(h.value.pos) else None
  }

  /** The first position at which `pat` occurs in `s` up to ASCII case. */
  function IndexOfCI(s: string, pat: string): (r: Option<nat>)
    ensures r.Some? ==> AtCI(s, r.value, pat) && forall q :: 0 <= q < r.value ==> !AtCI(s, q, pat)
    ensures r.None? ==> forall q :: 0 <= q <= |s| ==> !AtCI(s, q, pat)
  {
    var f: nat -> Option<nat> := i => if AtCI(s, i, pat) then Some(i) else None;
    assert forall q :: f(q).None? <==> !AtCI(s, q, pat);
    var h := FirstHit(0, |s|, f);
    if h.Some? then Some(h.value.pos) else None
  }

  /** `s.replace(pat, rep)` with a string pattern: only the first occurrence. */
  function ReplaceFirst(s: string, pat: string, rep: string): (r: string)
    ensures IndexOf(s, pat).None? ==> r == s
    ensures IndexOf(s, pat).Some? ==>
      var i := IndexOf(s, pat).value;
      r == s[..i] + rep + s[i + |pat|..]
  {
    match IndexOf(s, pat)
    case None => s
    case Some(i) => s[..i] + rep + s[i + |pat|..]
  }

  /** `s.replace(/pat/i, rep)` for a literal pattern: the first occurrence up to case. */
  function ReplaceFirstCI(s: string, pat: string, rep: string): (r: string)
    ensures IndexOfCI(s, pat).None? ==> r == s
    ensures IndexOfCI(s, pat).Some? ==>
      var i := IndexOfCI(s, pat).value;
      r == s[..i] + rep + s[i + |pat|..]
  {
    match IndexOfCI(s, pat)
    case None => s
    case Some(i) => s[..i] + rep + s[i + |pat|..]
  }

  /** The characters of `s` that satisfy `keep`, in order (a global `replace`
      of a character class by ""). */
  function Keep(s: string, keep: char -> bool): (r: string)
    ensures |r| <= |s|
    ensures forall c :: c in r ==> keep(c) && c in s
    ensures forall k :: 0 <= k < |s| && keep(s[k]) ==> s[k] in r
    decreases |s|
  {
    if s == [] then []
    else if keep(s[0]) then [s[0]] + Keep(s[1..], keep)
    else Keep(s[1..], keep)
  }

  lemma {:induction false} KeepAll(s: string, keep: char -> bool)
    requires forall c :: c in s ==> keep(c)
    ensures Keep(s, keep) == s
    decreases |s|
  {
    if s != [] {
      assert s[0] in s;
      assert forall c :: c in s[1..] ==> c in s;
      KeepAll(s[1..], keep);
      assert [s[0]] + s[1..] == s;
    }
  }

  /** Keeping characters of a concatenation keeps them from each part. */
  lemma {:induction false} KeepAppend(s: string, t: string, keep: char -> bool)
    ensures Keep(s + t, keep) == Keep(s, keep) + Keep(t, keep)
    decreases |s|
  {
    if s != [] {
      assert (s + t)[0] == s[0] && (s + t)[1..] == s[1..] + t;
      KeepAppend(s[1..], t, keep);
      if keep(s[0]) {
        assert Keep(s + t, keep) == [s[0]] + Keep(s[1..] + t, keep);
      } else {
        assert Keep(s + t, keep) == Keep(s[1..] + t, keep);
      }
    } else {
      assert s + t == t;
    }
  }

  /** `s.replace(/,/g, "")`. */
  function StripCommas(s: string): (r: string)
    ensures ',' !in r
    ensures forall c :: c in s && c != ',' ==> c in r
  {
    Keep(s, c => c != ',')
  }

  /** `String.prototype.length`: UTF-16 code units, two for a character
      outside the Basic Multilingual Plane. */
  function Utf16Length(s: string): (n: nat)
    ensures |s| <= n <= 2 * |s|
  {
    if s == [] then 0 else (if s[0] as int > 0xFFFF then 2 else 1) + Utf16Length(s[1..])
  }
}
