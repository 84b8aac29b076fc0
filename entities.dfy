/** Who paid and who was paid: `extractPaybillDestination` and
    `extractEntities` (app/api/extract/route.ts). A structured paybill or
    bank-transfer shape wins; otherwise four directional anchors ("sent to",
    "received from", "paid to", "given to") are applied one after another,
    each overwriting what an earlier one found.
 */
module Entities {
  import opened Scan
  import opened Text

  // ---------------------------------------------------------------------
  // extractPaybillDestination
  // ---------------------------------------------------------------------

  datatype Paybill = Paybill(destination: string, account: string)

  /** `[A-Z0-9\s&]` under the `i` flag. */
  predicate IsBodyChar(c: char) { IsAlnum(c) || IsSpace(c) || c == '&' }

  /** Where the opening alternative `(?:Bill payment to|sent to|paid to)` that
      starts at `p` ends. The three begin with different letters, so at most
      one applies. */
  function AnchorEnd(s: string, p: nat): (r: Option<nat>)
    ensures r.Some? ==> p < r.value <= |s|
  {
    if AtCI(s, p, "bill payment to") then Some(p + 15)
    else if AtCI(s, p, "sent to") then Some(p + 7)
    else if AtCI(s, p, "paid to") then Some(p + 7)
    else None
  }

  /** The keyword `kw` at `k`, then `\s*`, then the account `[A-Z0-9]+`. Giving
      back a space or a character of the account cannot help, so the greedy
      reading is the match. */
  function AccountAfter(s: string, k: nat, kw: string): (r: Option<string>)
    ensures r.Some? ==> |r.value| >= 1 && forall c :: c in r.value ==> IsAlnum(c)
  {
    if AtCI(s, k, kw) then
      var m := SkipSpaces(s, k + |kw|);
      if m < |s| && IsAlnum(s[m]) then
        var e := RunEnd(s, m, IsAlnum);
        assert forall c :: c in s[m..e] ==> IsAlnum(c) by {
          forall c | c in s[m..e] ensures IsAlnum(c) {
            var j :| 0 <= j < e - m && s[m..e][j] == c;
            assert s[m + j] == c;
          }
        }
        Some(s[m..e])
      else None
    else None
  }

  /** `\s*(?:for account|account number|for acc)\s*([A-Z0-9]+)` from `e`:
      the keywords are tried in this order. */
  function AccountTail(s: string, e: nat): (r: Option<string>)
    requires e <= |s|
    ensures r.Some? ==> |r.value| >= 1 && forall c :: c in r.value ==> IsAlnum(c)
  {
    var k := SkipSpaces(s, e);
    match AccountAfter(s, k, "for account")
    case Some(a) => Some(a)
    case None =>
      match AccountAfter(s, k, "account number")
      case Some(a) => Some(a)
      case None => AccountAfter(s, k, "for acc")
  }

  /** The rest of the first paybill pattern when the lazy name has taken
      `s[b..c]`: the optional `(?:LIMITED|STORE|BANK|ACCOUNT)` is tried in that
      order before it is skipped. The result is the raw group and account. */
  function Pattern1Tail(s: string, b: nat, c: nat): (r: Option<(string, string)>)
    requires b < c <= |s|
    ensures r.Some? ==> |r.value.1| >= 1 && forall ch :: ch in r.value.1 ==> IsAlnum(ch)
  {
    if AtCI(s, c, "limited") && AccountTail(s, c + 7).Some? then Some((s[b..c + 7], AccountTail(s, c + 7).value))
    else if AtCI(s, c, "store") && AccountTail(s, c + 5).Some? then Some((s[b..c + 5], AccountTail(s, c + 5).value))
    else if AtCI(s, c, "bank") && AccountTail(s, c + 4).Some? then Some((s[b..c + 4], AccountTail(s, c + 4).value))
    else if AtCI(s, c, "account") && AccountTail(s, c + 7).Some? then Some((s[b..c + 7], AccountTail(s, c + 7).value))
    else match AccountTail(s, c)
      case Some(a) => Some((s[b..c], a))
      case None => None
  }

  /** The lazy name `[A-Z0-9\s&]+?` that starts at `b`: the shortest end that
      lets the rest match. */
  function Pattern1Body(s: string, b: nat): (r: Option<(string, string)>)
    requires b <= |s|
    ensures r.Some? ==> |r.value.1| >= 1 && forall ch :: ch in r.value.1 ==> IsAlnum(ch)
  {
    var e := RunEnd(s, b, IsBodyChar);
    var f: nat -> Option<(string, string)> := (c: nat) => if b < c <= e then Pattern1Tail(s, b, c) else None;
    FirstValue(b + 1, e, f)
  }

  /** The first pattern at start `p`: after the anchor, `\s*` gives spaces back
      one at a time, from the greedy end down. */
  function Pattern1At(s: string, p: nat): (r: Option<(string, string)>)
    ensures r.Some? ==> |r.value.1| >= 1 && forall ch :: ch in r.value.1 ==> IsAlnum(ch)
  {
    match AnchorEnd(s, p)
    case None => None
    case Some(a) =>
      var f: nat -> Option<(string, string)> := (b: nat) => if b <= |s| then Pattern1Body(s, b) else None;
      FirstValueDown(SkipSpaces(s, a), a, f)
  }

  /** The rest of the second pattern after the lazy name `s[b..c]`:
      `\s*,\s*(\d+)\s*for account number\s*([A-Z0-9]+)`. */
  function Pattern2Tail(s: string, b: nat, c: nat): (r: Option<(string, string)>)
    requires b < c <= |s|
    ensures r.Some? ==> |r.value.1| >= 1 && forall ch :: ch in r.value.1 ==> IsAlnum(ch)
  {
    var k := SkipSpaces(s, c);
    if k < |s| && s[k] == ',' then
      var d := SkipSpaces(s, k + 1);
      if d < |s| && IsDigit(s[d]) then
        match AccountAfter(s, SkipSpaces(s, RunEnd(s, d, IsDigit)), "for account number")
        case Some(a) => Some((s[b..c], a))
        case None => None
      else None
    else None
  }

  function Pattern2Body(s: string, b: nat): (r: Option<(string, string)>)
    requires b <= |s|
    ensures r.Some? ==> |r.value.1| >= 1 && forall ch :: ch in r.value.1 ==> IsAlnum(ch)
  {
    var e := RunEnd(s, b, IsBodyChar);
    var f: nat -> Option<(string, string)> := (c: nat) => if b < c <= e then Pattern2Tail(s, b, c) else None;
    FirstValue(b + 1, e, f)
  }

  function Pattern2At(s: string, p: nat): (r: Option<(string, string)>)
    ensures r.Some? ==> |r.value.1| >= 1 && forall ch :: ch in r.value.1 ==> IsAlnum(ch)
  {
    if AtCI(s, p, "paid to") then
      var f: nat -> Option<(string, string)> := (b: nat) => if b <= |s| then Pattern2Body(s, b) else None;
      FirstValueDown(SkipSpaces(s, p + 7), p + 7, f)
    else None
  }

  /** The destination of the first pattern: trimmed, whitespace collapsed, and
      the first "Paybill Account" and then the first "Paybill" (any case) cut out. */
  function CleanDestination(group: string): (r: string)
    ensures r != [] ==> !IsSpace(r[0]) && !IsSpace(r[|r| - 1])
  {
    Trim(ReplaceFirstCI(ReplaceFirstCI(CollapseSpaces(Trim(group)), "paybill account", ""), "paybill", ""))
  }

  /** The leftmost match of the first pattern, as raw group and account. */
  function Pattern1(msg: string): (r: Option<(string, string)>)
    ensures r.Some? ==> |r.value.1| >= 1 && forall ch :: ch in r.value.1 ==> IsAlnum(ch)
  {
    var f: nat -> Option<(string, string)> := (p: nat) => Pattern1At(msg, p);
    FirstValue(0, |msg|, f)
  }

  /** The leftmost match of the second pattern, as raw group and account. */
  function Pattern2(msg: string): (r: Option<(string, string)>)
    ensures r.Some? ==> |r.value.1| >= 1 && forall ch :: ch in r.value.1 ==> IsAlnum(ch)
  {
    var f: nat -> Option<(string, string)> := (p: nat) => Pattern2At(msg, p);
    FirstValue(0, |msg|, f)
  }

  /** Trimming an account leaves it as it is. */
  lemma TrimAccount(a: string)
    requires |a| >= 1 && forall c :: c in a ==> IsAlnum(c)
    ensures Trim(a) == a
  {
    assert a[0] in a && a[|a| - 1] in a;
    TrimStartOfNonSpace(a);
    TrimEndOfNonSpace(a);
  }

  /** `extractPaybillDestination`: the bill-payment shape first, then the
      "paid to NAME, PAYBILL for account number ACCOUNT" shape, else null. */
  function PaybillDestination(msg: string): (r: Option<Paybill>)
    ensures r.Some? ==> |r.value.account| >= 1 && forall c :: c in r.value.account ==> IsAlnum(c)
    ensures r.Some? <==> Pattern1(msg).Some? || Pattern2(msg).Some?
    ensures Pattern1(msg).Some? ==>
      r == Some(Paybill(CleanDestination(Pattern1(msg).value.0), Pattern1(msg).value.1))
    ensures Pattern1(msg).None? && Pattern2(msg).Some? ==>
      r == Some(Paybill(CollapseSpaces(Trim(Pattern2(msg).value.0)), Pattern2(msg).value.1))
  {
    var m1 := Pattern1(msg);
    if m1.Some? then
      var account := Trim(m1.value.1);
      TrimAccount(m1.value.1);
      Some(Paybill(CleanDestination(m1.value.0), account))
    else
      var m2 := Pattern2(msg);
      if m2.Some? then
        var account := Trim(m2.value.1);
        TrimAccount(m2.value.1);
        var destination := CollapseSpaces(Trim(m2.value.0));
        Some(Paybill(destination, account))
      else None
  }

  // ---------------------------------------------------------------------
  // Directional anchors: VERB\s+PREP\s+([A-Za-z\s]+?)(?:\s*,|\s+\d|\s+on\b|\s*$)
  // ---------------------------------------------------------------------

  /** `[A-Za-z\s]` under the `i` flag. */
  predicate IsNameChar(c: char) { IsLetter(c) || IsSpace(c) }

  /** The terminator after a name that ends at `c`: a comma, a digit after
      spaces, the word "on" after spaces, or the end of the text after
      optional spaces. */
  predicate NameEndsAt(s: string, c: nat)
    requires c <= |s|
  {
    var d := SkipSpaces(s, c);
    (d < |s| && s[d] == ',')
    || (d > c && d < |s| && IsDigit(s[d]))
    || (d > c && AtCI(s, d, "on") && IsBoundary(s, d + 2))
    || d == |s|
  }

  /** The lazy name that starts at `b`. */
  function NameFrom(s: string, b: nat): (r: Option<string>)
    requires b <= |s|
  {
    var e := RunEnd(s, b, IsNameChar);
    var f: nat -> Option<string> := (c: nat) => if b < c <= e && NameEndsAt(s, c) then Some(s[b..c]) else None;
    FirstValue(b + 1, e, f)
  }

  /** The anchor `verb\s+prep\s+` at `p`, then the name. Each `\s+` is
      followed by a letter of the next literal, so only its greedy end can
      match, except the last, which gives spaces back to the name. */
  function DirectionalAt(s: string, p: nat, verb: string, prep: string): (r: Option<string>)
  {
    if AtCI(s, p, verb) then
      var q := SkipSpaces(s, p + |verb|);
      if q > p + |verb| && AtCI(s, q, prep) then
        var a := q + |prep|;
        var b0 := SkipSpaces(s, a);
        var f: nat -> Option<string> := (b: nat) => if b <= |s| then NameFrom(s, b) else None;
        if b0 > a then FirstValueDown(b0, a + 1, f) else None
      else None
    else None
  }

  /** The trimmed capture of the leftmost match of a directional anchor. */
  function Directional(s: string, verb: string, prep: string): (r: Option<string>)
    ensures r.Some? ==> r.value == Trim(r.value)
  {
    var f: nat -> Option<string> := (p: nat) => DirectionalAt(s, p, verb, prep);
    match FirstValue(0, |s|, f)
    case Some(g) => TrimIdempotent(g); Some(Trim(g))
    case None => None
  }

  // ---------------------------------------------------------------------
  // extractEntities
  // ---------------------------------------------------------------------

  /** Text as the final clean-up leaves it: every whitespace character is a
      plain space, no two are adjacent, none at either end. */
  predicate Clean(t: string) {
    (forall k :: 0 <= k < |t| && IsSpace(t[k]) ==> t[k] == ' ')
    && (forall k :: 0 <= k < |t| - 1 ==> !(IsSpace(t[k]) && IsSpace(t[k + 1])))
    && (t != [] ==> !IsSpace(t[0]) && !IsSpace(t[|t| - 1]))
  }

  /** A slice of collapsed text has no whitespace other than single spaces. */
  lemma CollapsedSlice(c: string, i: nat, j: nat)
    requires i <= j <= |c|
    requires forall k :: 0 <= k < |c| && IsSpace(c[k]) ==> c[k] == ' '
    requires forall k :: 0 <= k < |c| - 1 ==> !(IsSpace(c[k]) && IsSpace(c[k + 1]))
    ensures forall k :: 0 <= k < j - i && IsSpace(c[i..j][k]) ==> c[i..j][k] == ' '
    ensures forall k :: 0 <= k < j - i - 1 ==> !(IsSpace(c[i..j][k]) && IsSpace(c[i..j][k + 1]))
  {
    forall k | 0 <= k < j - i ensures c[i..j][k] == c[i + k] {}
  }

  /** `replace(/\s+/g, " ").trim()`. */
  function Tidy(t: string): (r: string)
    ensures Clean(r)
  {
    var c := CollapseSpaces(t);
    TrimCollapsed(c);
    Trim(c)
  }

  /** Trimming collapsed text leaves it clean. */
  lemma TrimCollapsed(c: string)
    requires forall k :: 0 <= k < |c| && IsSpace(c[k]) ==> c[k] == ' '
    requires forall k :: 0 <= k < |c| - 1 ==> !(IsSpace(c[k]) && IsSpace(c[k + 1]))
    ensures Clean(Trim(c))
  {
    var r := Trim(c);
    var i, j :| 0 <= i <= j <= |c| && r == c[i..j];
    CollapsedSlice(c, i, j);
  }

  /** The names the directional anchors give, stated by priority: the payee
      comes from "given to", else "paid to", else "sent to", else is empty;
      the payer from "received from", else the sender; both tidied. This is
      what the overwrite order of the source amounts to. */
  function Directions(msg: string, sender: string): (r: (string, string))
    ensures Clean(r.0) && Clean(r.1)
    ensures var received := Directional(msg, "received", "from");
      r.0 == if received.Some? then Tidy(received.value) else Tidy(sender)
    ensures Directional(msg, "given", "to").Some? ==>
      r.1 == Tidy(Directional(msg, "given", "to").value)
    ensures Directional(msg, "given", "to").None? && Directional(msg, "paid", "to").Some? ==>
      r.1 == Tidy(Directional(msg, "paid", "to").value)
    ensures (Directional(msg, "given", "to").None? && Directional(msg, "paid", "to").None?
             && Directional(msg, "sent", "to").Some?) ==>
      r.1 == Tidy(Directional(msg, "sent", "to").value)
    ensures (Directional(msg, "given", "to").None? && Directional(msg, "paid", "to").None?
             && Directional(msg, "sent", "to").None?) ==>
      r.1 == ""
  {
    var paidTo :=
      match Directional(msg, "given", "to")
      case Some(g) => g
      case None =>
        match Directional(msg, "paid", "to")
        case Some(g) => g
        case None => Directional(msg, "sent", "to").GetOr("");
    var paidBy := Directional(msg, "received", "from").GetOr(sender);
    (Tidy(paidBy), Tidy(paidTo))
  }

  /** `extractEntities` as a value: a paybill match overrides the anchors,
      giving the sender as it is and the destination with its account. */
  function EntitiesOf(msg: string, sender: string): (r: (string, string))
    ensures PaybillDestination(msg).Some? ==>
      var pd := PaybillDestination(msg).value;
      r == (sender, pd.destination + " - Account No: " + pd.account)
    ensures PaybillDestination(msg).None? ==> r == Directions(msg, sender)
  {
    match PaybillDestination(msg)
    case Some(pd) => (sender, pd.destination + " - Account No: " + pd.account)
    case None => Directions(msg, sender)
  }

  /** `extractEntities`: the anchors are applied one after another, each
      match overwriting the field it sets. */
  method ExtractEntities(msg: string, sender: string) returns (paidBy: string, paidTo: string)
    ensures (paidBy, paidTo) == EntitiesOf(msg, sender)
  {
    var structured := PaybillDestination(msg);
    if structured.Some? {
      return sender, structured.value.destination + " - Account No: " + structured.value.account;
    }
    paidBy := sender;
    paidTo := "";
    var m := Directional(msg, "sent", "to");
    if m.Some? { paidTo := m.value; }
    m := Directional(msg, "received", "from");
    if m.Some? { paidBy := m.value; }
    m := Directional(msg, "paid", "to");
    if m.Some? { paidTo := m.value; }
    m := Directional(msg, "given", "to");
    if m.Some? { paidTo := m.value; }
    paidTo := Tidy(paidTo);
    paidBy := Tidy(paidBy);
  }
}
