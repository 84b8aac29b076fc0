/** Reference codes: `extractCode` and `extractCodeFromText`
    (app/api/extract/route.ts), the same pattern `\b([A-Z0-9]{8,12})\b`
    without the `i` flag. Both source functions are this one function.
 */
module Codes {
  import opened Scan
  import opened Text

  predicate IsCodeChar(c: char) { IsUpper(c) || IsDigit(c) }

  /** The code the pattern matches when it starts at `p`. A word must start
      at `p`; the engine then tries 12 down to 8 code characters, and the
      closing `\b` rejects every count that stops inside the run of code
      characters, so only a run of 8 to 12 that a non-word character (or the
      end) follows can match. */
  function CodeAt(s: string, p: nat): (r: Option<string>)
  {
    if p < |s| && (p == 0 || !IsWordChar(s[p - 1])) then
      var e := RunEnd(s, p, IsCodeChar);
      if 8 <= e - p <= 12 && (e == |s| || !IsWordChar(s[e])) then Some(s[p..e]) else None
    else None
  }

  /** A standalone reference `w` at `p`: 8 to 12 capital letters and digits
      with no word character on either side. */
  predicate Standalone(s: string, p: nat, w: string) {
    8 <= |w| <= 12 && (forall c :: c in w ==> IsCodeChar(c))
    && p + |w| <= |s| && s[p..p + |w|] == w
    && (p == 0 || !IsWordChar(s[p - 1]))
    && (p + |w| == |s| || !IsWordChar(s[p + |w|]))
  }

  /** The first standalone code of the text, or null. */
  function ExtractCode(s: string): (r: Option<string>)
    ensures r.Some? ==> 8 <= |r.value| <= 12 && forall c :: c in r.value ==> IsCodeChar(c)
  {
    var f: nat -> Option<string> := (p: nat) => CodeAt(s, p);
    var h := FirstHit(0, |s|, f);
    if h.Some? then
      CodeAtIsStandalone(s, h.value.pos, h.value.value);
      Some(h.value.value)
    else None
  }

  /** The scanner at `p` finds `w` exactly when `w` stands alone at `p`. */
  lemma CodeAtIsStandalone(s: string, p: nat, w: string)
    ensures CodeAt(s, p) == Some(w) <==> Standalone(s, p, w)
  {
    if Standalone(s, p, w) {
      assert w[0] in w;
      RunOver(s, p, w, IsCodeChar);
    }
    if CodeAt(s, p) == Some(w) {
      var e := RunEnd(s, p, IsCodeChar);
      forall c | c in w ensures IsCodeChar(c) {
        var k :| 0 <= k < |w| && w[k] == c;
        assert s[p + k] == c;
      }
    }
  }

  /** What `extractCode` returns, stated without the scanner: the standalone
      code that starts first, and null exactly when there is none. */
  lemma ExtractCodeSpec(s: string)
    ensures ExtractCode(s).Some? <==> exists p, w :: 0 <= p <= |s| && Standalone(s, p, w)
    ensures ExtractCode(s).Some? ==>
      exists p :: (0 <= p <= |s| && Standalone(s, p, ExtractCode(s).value)
        && forall q, w :: 0 <= q < p ==> !Standalone(s, q, w))
  {
    var f: nat -> Option<string> := (p: nat) => CodeAt(s, p);
    var h := FirstHit(0, |s|, f);
    forall q: nat, w | Standalone(s, q, w) ensures f(q) == Some(w) {
      CodeAtIsStandalone(s, q, w);
    }
    if h.Some? {
      var p := h.value.pos;
      CodeAtIsStandalone(s, p, h.value.value);
      assert Standalone(s, p, ExtractCode(s).value);
    }
  }

  /** A message that starts with a reference yields that reference. */
  lemma CodeFirstInMessage(w: string, rest: string)
    requires 8 <= |w| <= 12 && forall c :: c in w ==> IsCodeChar(c)
    ensures ExtractCode(w + " " + rest) == Some(w)
  {
    var s := w + " " + rest;
    assert s[0..|w|] == w && s[|w|] == ' ';
    CodeAtIsStandalone(s, 0, w);
    var f: nat -> Option<string> := (p: nat) => CodeAt(s, p);
    assert f(0) == Some(w);
  }
}
