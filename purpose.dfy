/** `extractPurposeFromContext` (app/api/extract/route.ts): the purpose of a
    WhatsApp payment is a "for ..." clause of the message itself, else the
    next message when that reads like a note, else a fixed placeholder.
 */
module Purpose {
  import opened Scan
  import opened Text

  const Fallback: string := "General / See Reference"

  /** The lazy `(.+?)(?:\.|$)` from `b`: the shortest run of characters other
      than line terminators that a dot or the end of the text follows. */
  function ClauseFrom(s: string, b: nat): (r: Option<string>)
    requires b <= |s|
  {
    var e := RunEnd(s, b, NotLineTerminator);
    var f: nat -> Option<string> := (c: nat) => if b < c <= e && (c == |s| || s[c] == '.') then Some(s[b..c]) else None;
    FirstValue(b + 1, e, f)
  }

  /** `\bfor\s+(.+?)(?:\.|$)` with the `i` flag, at start `p`. The greedy
      `\s+` gives spaces back to the clause one at a time. */
  function ForClauseAt(s: string, p: nat): (r: Option<string>)
  {
    if p + 3 <= |s| && IsBoundary(s, p) && AtCI(s, p, "for") then
      var q := SkipSpaces(s, p + 3);
      var f: nat -> Option<string> := (b: nat) => if b <= |s| then ClauseFrom(s, b) else None;
      if q > p + 3 then FirstValueDown(q, p + 4, f) else None
    else None
  }

  /** The untrimmed clause of the leftmost match. */
  function ForClause(s: string): (r: Option<string>)
    ensures r.Some? <==> exists p :: 0 <= p <= |s| && ForClauseAt(s, p).Some?
  {
    var f: nat -> Option<string> := (p: nat) => ForClauseAt(s, p);
    assert forall p :: f(p) == ForClauseAt(s, p);
    FirstValue(0, |s|, f)
  }

  const TransactionWords: seq<string> := ["sent to", "paid to", "received", "ksh", "kes"]
  const PurposeWords: seq<string> :=
    ["labour", "labor", "material", "cement", "sand", "transport", "fee", "deposit", "allowance", "fuel", "hives"]

  predicate AnyWord(s: string, words: seq<string>) {
    exists k :: 0 <= k < |words| && ContainsCI(s, words[k])
  }

  /** The next message serves as a purpose: it does not read like a
      transaction, and it is short or names a purpose keyword. */
  predicate NoteLike(t: string) {
    !AnyWord(t, TransactionWords) && (Utf16Length(t) < 150 || AnyWord(t, PurposeWords))
  }

  /** A "for" clause longer than three UTF-16 code units. */
  predicate LongClause(current: string) {
    ForClause(current).Some? && Utf16Length(ForClause(current).value) > 3
  }

  /** A next message that is present, non-empty and reads as a note once
      trimmed. */
  predicate NoteNext(next: Option<string>) {
    next.Some? && next.value != [] && NoteLike(Trim(next.value))
  }

  /** `extractPurposeFromContext`; `next` is `None` when there is no next
      message. A clause longer than three code units wins, else a note-like
      next message (trimmed, so possibly empty), else the placeholder. */
  function PurposeFromContext(current: string, next: Option<string>): (r: string)
    ensures Trim(r) == r
    ensures r == Fallback || (ForClause(current).Some? && r == Trim(ForClause(current).value))
      || (next.Some? && r == Trim(next.value) && NoteLike(r))
    ensures LongClause(current) ==> r == Trim(ForClause(current).value)
    ensures !LongClause(current) && NoteNext(next) ==> r == Trim(next.value)
    ensures !LongClause(current) && !NoteNext(next) ==> r == Fallback
  {
    if LongClause(current) then
      TrimIdempotent(ForClause(current).value);
      Trim(ForClause(current).value)
    else if NoteNext(next) then
      TrimIdempotent(next.value);
      Trim(next.value)
    else
      FallbackTrimmed(Fallback);
      Fallback
  }

  lemma FallbackTrimmed(t: string)
    requires t == Fallback
    ensures Trim(t) == t
  {
    assert t[0] == 'G' && t[|t| - 1] == 'e';
    TrimStartOfNonSpace(t);
    TrimEndOfNonSpace(t);
  }

  /** A character that cannot begin the word "for". */
  predicate NotF(c: char) { Lower(c) != 'f' }

  /** The clause after " for " is read up to the end when it holds no dot
      and no line break and starts with a non-space. */
  lemma ClauseToEnd(s: string, b: nat)
    requires b < |s| && !IsSpace(s[b])
    requires forall k :: b <= k < |s| ==> s[k] != '.' && !IsLineTerminator(s[k])
    ensures ClauseFrom(s, b) == Some(s[b..])
  {
    RunEndUnique(s, b, |s|, NotLineTerminator);
    var e := RunEnd(s, b, NotLineTerminator);
    var f: nat -> Option<string> := (c: nat) => if b < c <= e && (c == |s| || s[c] == '.') then Some(s[b..c]) else None;
    assert s[b..|s|] == s[b..];
    assert f(|s|) == Some(s[b..]);
    FirstHitAt(b + 1, e, f, |s|);
    assert FirstValue(b + 1, e, f) == Some(s[b..]);
  }

  /** "WORDS for CLAUSE": when no letter f comes before the " for ", and the
      clause has at least four characters, no dot and no line break, the
      purpose is the trimmed clause, whatever the next message says. */
  lemma ForClausePurpose(w: string, clause: string, next: Option<string>)
    requires forall c :: c in w ==> NotF(c)
    requires |clause| >= 4 && !IsSpace(clause[0])
    requires forall c :: c in clause ==> c != '.' && !IsLineTerminator(c)
    ensures PurposeFromContext(w + " for " + clause, next) == Trim(clause)
  {
    ForClauseFound(w, clause);
    assert LongClause(w + " for " + clause);
  }

  /** The clause of "WORDS for CLAUSE" is found whole. */
  lemma ForClauseFound(w: string, clause: string)
    requires forall c :: c in w ==> NotF(c)
    requires |clause| >= 4 && !IsSpace(clause[0])
    requires forall c :: c in clause ==> c != '.' && !IsLineTerminator(c)
    ensures ForClause(w + " for " + clause) == Some(clause)
  {
    var s := w + " for " + clause;
    var p := |w| + 1;
    assert ForClauseAt(s, p) == Some(clause) by {
      ClauseAfterFor(w, clause);
    }
    var fp: nat -> Option<string> := (q: nat) => ForClauseAt(s, q);
    forall q | 0 <= q < p ensures fp(q).None? {
      NoForBefore(w, clause, q);
    }
    FirstHitAt(0, |s|, fp, p);
  }

  /** No match of the pattern starts before the word "for" when the words
      before it hold no letter f. */
  lemma NoForBefore(w: string, clause: string, q: nat)
    requires forall c :: c in w ==> NotF(c)
    requires q <= |w|
    ensures ForClauseAt(w + " for " + clause, q).None?
  {
    var s := w + " for " + clause;
    if q < |w| {
      assert s[q] == w[q] && w[q] in w;
    } else {
      assert s[q] == ' ';
    }
    NotAtCI(s, q, "for");
  }

  /** At the word "for" of "WORDS for CLAUSE" the pattern reads the whole clause. */
  lemma ClauseAfterFor(w: string, clause: string)
    requires |clause| >= 4 && !IsSpace(clause[0])
    requires forall c :: c in clause ==> c != '.' && !IsLineTerminator(c)
    ensures ForClauseAt(w + " for " + clause, |w| + 1) == Some(clause)
  {
    var s := w + " for " + clause;
    var p := |w| + 1;
    assert s[p..p + 3] == "for";
    assert s[p - 1] == ' ' && s[p + 3] == ' ' && s[p + 4] == clause[0];
    assert s[p + 4..] == clause;
    forall k | p + 4 <= k < |s| ensures s[k] != '.' && !IsLineTerminator(s[k]) {
      assert s[k] == clause[k - p - 4];
      assert clause[k - p - 4] in clause;
    }
    ClauseToEnd(s, p + 4);
    assert SkipSpaces(s, p + 3) == p + 4;
    var fb: nat -> Option<string> := (b: nat) => if b <= |s| then ClauseFrom(s, b) else None;
  }
}
