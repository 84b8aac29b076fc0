/** Properties of the entity extraction: what a well-formed paybill message
    yields, with and without the word "Paybill" after the name. */
module EntityFacts {
  import opened Scan
  import opened Text
  import opened Entities

  /** Two adjacent characters that spell, in any case, the start of a
      keyword the first paybill pattern looks for after the name: LIMITED,
      STORE, BANK, ACCOUNT, "for account", "account number", "for acc". */
  predicate KeywordPair(x: char, y: char) {
    var p := (Lower(x), Lower(y));
    p == ('l', 'i') || p == ('s', 't') || p == ('b', 'a') || p == ('a', 'c') || p == ('f', 'o')
  }

  /** Two adjacent characters that spell the start of "Paybill" in any case. */
  predicate PaybillPair(x: char, y: char) {
    Lower(x) == 'p' && Lower(y) == 'a'
  }

  /** A destination name the pattern reads whole and the clean-up keeps:
      letters and digits, in which no keyword and no "Paybill" starts. */
  predicate PlainName(n: string) {
    |n| >= 1 && (forall c :: c in n ==> IsAlnum(c))
    && forall i :: 0 <= i < |n| - 1 ==> !KeywordPair(n[i], n[i + 1]) && !PaybillPair(n[i], n[i + 1])
  }

  predicate Account(a: string) {
    |a| >= 1 && forall c :: c in a ==> IsAlnum(c)
  }

  /** The layout of "paid to GROUP for account ACCOUNT", position by position. */
  predicate Laid(s: string, g: string, a: string) {
    |s| == 8 + |g| + 13 + |a|
    && s[..8] == "paid to "
    && s[8..8 + |g|] == g
    && s[8 + |g|] == ' '
    && s[8 + |g| + 1..8 + |g| + 12] == "for account"
    && s[8 + |g| + 12] == ' '
    && s[8 + |g| + 13..] == a
  }

  lemma LaidOut(g: string, a: string)
    ensures Laid("paid to " + g + " for account " + a, g, a)
  {
    var kw := "for account";
    assert " for account " == [' '] + kw + [' '];
    var s := "paid to " + g + " for account " + a;
    assert s == "paid to " + g + [' '] + kw + [' '] + a;
    var L := 8 + |g|;
    assert s[..8] == "paid to ";
    assert s[8..L] == g;
    assert s[L + 1..L + 12] == kw;
    assert s[L + 13..] == a;
  }

  /** A literal that occurs in `s` as it is written occurs in any case. */
  lemma AtExact(s: string, i: nat, lit: string)
    requires i + |lit| <= |s| && s[i..i + |lit|] == lit
    ensures AtCI(s, i, lit)
  {
    forall k | 0 <= k < |lit| ensures s[i + k] == lit[k] {
      assert s[i..i + |lit|][k] == s[i + k];
    }
  }

  /** A keyword, one space and an account that runs to the end of the text
      read as that account. */
  lemma AccountAfterSpace(s: string, k: nat, kw: string, a: string)
    requires k + |kw| + 1 + |a| == |s| && s[k..k + |kw|] == kw && s[k + |kw|] == ' '
    requires s[k + |kw| + 1..] == a && Account(a)
    ensures AccountAfter(s, k, kw) == Some(a)
  {
    AtExact(s, k, kw);
    var m := k + |kw| + 1;
    assert s[m] == a[0] && a[0] in a;
    assert SkipSpaces(s, k + |kw|) == m;
    RunOver(s, m, a, IsAlnum);
    assert s[m..|s|] == a;
  }

  /** A literal cannot occur where its first two letters do not, up to case. */
  lemma NotKeywordAt(s: string, c: nat, lit: string)
    requires |lit| >= 2 && c + 1 < |s|
    requires !(Lower(s[c]) == Lower(lit[0]) && Lower(s[c + 1]) == Lower(lit[1]))
    ensures !AtCI(s, c, lit)
  {
    if c + |lit| <= |s| {
      assert !(Lower(s[c + 0]) == Lower(lit[0]) && Lower(s[c + 1]) == Lower(lit[1]));
    }
  }

  /** The lazy group cannot end before a non-space that does not start a
      keyword pair: neither an optional suffix nor an account keyword starts
      there. */
  lemma NoTailAtPair(s: string, b: nat, c: nat)
    requires b < c && c + 1 < |s| && !IsSpace(s[c]) && !KeywordPair(s[c], s[c + 1])
    ensures Pattern1Tail(s, b, c).None?
  {
    NotKeywordAt(s, c, "limited");
    NotKeywordAt(s, c, "store");
    NotKeywordAt(s, c, "bank");
    NotKeywordAt(s, c, "account");
    NotKeywordAt(s, c, "for account");
    NotKeywordAt(s, c, "account number");
    NotKeywordAt(s, c, "for acc");
    assert SkipSpaces(s, c) == c;
  }

  /** Inside a plain name that starts at 8 and is followed by a space, the
      lazy group cannot end. */
  lemma NoTailInsideName(s: string, n: string, c: nat)
    requires PlainName(n) && 8 + |n| < |s| && s[8..8 + |n|] == n && s[8 + |n|] == ' '
    requires 8 < c < 8 + |n|
    ensures Pattern1Tail(s, 8, c).None?
  {
    assert s[c] == n[c - 8] && n[c - 8] in n;
    if c + 1 < 8 + |n| {
      assert s[c + 1] == n[c - 7];
      assert !KeywordPair(n[c - 8], n[c - 7]);
    }
    NoTailAtPair(s, 8, c);
  }

  /** Where " Paybill" starts, the lazy group cannot end: neither an optional
      suffix nor, after the space, an account keyword starts there. */
  lemma NoTailBeforePaybill(s: string, c: nat)
    requires 8 < c && c + 1 < |s| && s[c] == ' ' && s[c + 1] == 'P'
    ensures Pattern1Tail(s, 8, c).None?
  {
    RunEndUnique(s, c, c + 1, IsSpace);
    NotAtCI(s, c, "limited");
    NotAtCI(s, c, "store");
    NotAtCI(s, c, "bank");
    NotAtCI(s, c, "account");
    NotAtCI(s, c + 1, "for account");
    NotAtCI(s, c + 1, "account number");
    NotAtCI(s, c + 1, "for acc");
  }

  /** " Paybill " laid out character by character from `m`. */
  predicate PaybillAt(s: string, m: nat) {
    m + 8 < |s| && s[m] == ' ' && s[m + 1] == 'P' && s[m + 2] == 'a' && s[m + 3] == 'y'
    && s[m + 4] == 'b' && s[m + 5] == 'i' && s[m + 6] == 'l' && s[m + 7] == 'l' && s[m + 8] == ' '
  }

  /** Inside " Paybill" followed by a space, the lazy group cannot end. */
  lemma NoTailInPaybillWord(s: string, m: nat, c: nat)
    requires 8 < m && PaybillAt(s, m) && m <= c < m + 8
    ensures Pattern1Tail(s, 8, c).None?
  {
    if c == m {
      NoTailBeforePaybill(s, c);
    } else {
      assert !KeywordPair(s[c], s[c + 1]) by {
        if c == m + 1 {
        } else if c == m + 2 {
        } else if c == m + 3 {
        } else if c == m + 4 {
        } else if c == m + 5 {
        } else if c == m + 6 {
        } else {
          assert c == m + 7;
        }
      }
      NoTailAtPair(s, 8, c);
    }
  }

  /** From the space after the group, "for account" and the account are read. */
  lemma AccountAfterName(s: string, g: string, a: string)
    requires Laid(s, g, a) && Account(a)
    ensures AccountTail(s, 8 + |g|) == Some(a)
  {
    var L := 8 + |g|;
    assert s[L + 1] == "for account"[0] == 'f';
    assert SkipSpaces(s, L) == L + 1;
    AccountAfterSpace(s, L + 1, "for account", a);
  }

  /** Right after the group it ends and the account is read whole. */
  lemma TailAfterName(s: string, g: string, a: string)
    requires Laid(s, g, a) && |g| >= 1 && Account(a)
    ensures Pattern1Tail(s, 8, 8 + |g|) == Some((g, a))
  {
    var L := 8 + |g|;
    assert s[L] == ' ';
    NotAtCI(s, L, "limited");
    NotAtCI(s, L, "store");
    NotAtCI(s, L, "bank");
    NotAtCI(s, L, "account");
    AccountAfterName(s, g, a);
  }

  /** A group the first pattern reads whole from 8: it starts with a
      non-space, holds only name characters, and the lazy group cannot end
      inside it. */
  predicate NameGroup(s: string, g: string, a: string) {
    Laid(s, g, a) && |g| >= 1 && !IsSpace(g[0]) && Account(a)
    && (forall c :: c in g ==> IsBodyChar(c))
    && forall q :: 8 < q < 8 + |g| ==> Pattern1Tail(s, 8, q).None?
  }

  /** The run of name characters from the start of the group reaches past it. */
  lemma BodyRunCoversName(s: string, g: string, a: string)
    requires Laid(s, g, a) && forall c :: c in g ==> IsBodyChar(c)
    ensures RunEnd(s, 8, IsBodyChar) >= 8 + |g|
  {
    var L := 8 + |g|;
    var e := RunEnd(s, 8, IsBodyChar);
    forall k | 8 <= k < L ensures IsBodyChar(s[k]) {
      assert s[k] == g[k - 8];
      assert g[k - 8] in g;
    }
    if e < L {
      assert false;
    }
  }

  /** The lazy group that starts at 8 ends right after the group. */
  lemma BodyAtName(s: string, g: string, a: string)
    requires NameGroup(s, g, a)
    ensures Pattern1Body(s, 8) == Some((g, a))
  {
    var L := 8 + |g|;
    assert L <= |s| && L <= RunEnd(s, 8, IsBodyChar) by {
      BodyRunCoversName(s, g, a);
    }
    assert Pattern1Tail(s, 8, L) == Some((g, a)) by {
      TailAfterName(s, g, a);
    }
    BodyEndsAt(s, L, (g, a));
  }

  /** The lazy group from 8 ends at the first end `L` the tail accepts. */
  lemma BodyEndsAt(s: string, L: nat, v: (string, string))
    requires 8 < L <= |s| && L <= RunEnd(s, 8, IsBodyChar) && Pattern1Tail(s, 8, L) == Some(v)
    requires forall q :: 8 < q < L ==> Pattern1Tail(s, 8, q).None?
    ensures Pattern1Body(s, 8) == Some(v)
  {
    var e := RunEnd(s, 8, IsBodyChar);
    var f: nat -> Option<(string, string)> := (c: nat) => if 8 < c <= e then Pattern1Tail(s, 8, c) else None;
    assert f(L) == Some(v);
    FirstHitAt(9, e, f, L);
  }

  /** At the start of the message the anchor "paid to" is found and the
      pattern reads the group and the account. */
  lemma Pattern1AtStart(s: string, g: string, a: string)
    requires NameGroup(s, g, a)
    ensures Pattern1At(s, 0) == Some((g, a))
  {
    assert s[7] == ' ' && s[8] == g[0];
    assert SkipSpaces(s, 7) == 8;
    assert s[..7] == "paid to";
    NotAtCI(s, 0, "bill payment to");
    NotAtCI(s, 0, "sent to");
    AtExact(s, 0, "paid to");
    assert AnchorEnd(s, 0) == Some(7);
    BodyAtName(s, g, a);
    var fb: nat -> Option<(string, string)> := (b: nat) => if b <= |s| then Pattern1Body(s, b) else None;
    assert FirstValueDown(8, 7, fb) == Some((g, a));
  }

  /** The first pattern's leftmost match is the group and the account. */
  lemma Pattern1Of(s: string, g: string, a: string)
    requires NameGroup(s, g, a)
    ensures Pattern1(s) == Some((g, a))
  {
    Pattern1AtStart(s, g, a);
    var fp: nat -> Option<(string, string)> := (p: nat) => Pattern1At(s, p);
    FirstHitAt(0, |s|, fp, 0);
  }

  /** A plain name holds no "Paybill". */
  lemma NoPaybillInPlainName(n: string)
    requires PlainName(n)
    ensures IndexOfCI(n, "paybill account").None? && IndexOfCI(n, "paybill").None?
  {
    forall q | 0 <= q <= |n| ensures !AtCI(n, q, "paybill account") && !AtCI(n, q, "paybill") {
      if q + 7 <= |n| {
        assert !PaybillPair(n[q], n[q + 1]);
        NotKeywordAt(n, q, "paybill account");
        NotKeywordAt(n, q, "paybill");
      }
    }
  }

  lemma PlainNoSpace(n: string)
    requires PlainName(n)
    ensures forall c :: c in n ==> !IsSpace(c)
  {
  }

  lemma TrimPlainName(n: string)
    requires PlainName(n)
    ensures Trim(n) == n
  {
    assert n[0] in n && n[|n| - 1] in n;
    TrimStartOfNonSpace(n);
    TrimEndOfNonSpace(n);
  }

  /** The cleaning of a destination leaves a plain name as it is. */
  lemma CleanPlainName(n: string)
    requires PlainName(n)
    ensures CleanDestination(n) == n
  {
    var t := Trim(n);
    assert t == n by { TrimPlainName(n); }
    var c := CollapseSpaces(t);
    assert c == n by { PlainNoSpace(n); CollapseWithoutSpaces(n); }
    var r1 := ReplaceFirstCI(c, "paybill account", "");
    var r2 := ReplaceFirstCI(r1, "paybill", "");
    assert r1 == n && r2 == n by { NoPaybillInPlainName(n); }
    assert Trim(r2) == n by { TrimPlainName(n); }
  }

  /** Collapsing whitespace leaves two space-free words joined by one space
      as they are. */
  lemma {:induction false} CollapseTwoWords(n: string, w: string)
    requires (forall c :: c in n ==> !IsSpace(c)) && (forall c :: c in w ==> !IsSpace(c))
    ensures CollapseSpaces(n + " " + w) == n + " " + w
    decreases |n|
  {
    var s := n + " " + w;
    if n == [] {
      assert s == " " + w && IsSpace(s[0]);
      assert RunEnd(s, 0, IsSpace) == 1 by {
        assert |w| > 0 ==> s[1] == w[0] && w[0] in w;
        RunEndUnique(s, 0, 1, IsSpace);
      }
      assert s[1..] == w;
      assert CollapseSpaces(w) == w by {
        CollapseWithoutSpaces(w);
      }
    } else {
      var rest := n[1..] + " " + w;
      assert CollapseSpaces(rest) == rest by {
        assert forall c :: c in n[1..] ==> c in n;
        CollapseTwoWords(n[1..], w);
      }
      assert !IsSpace(s[0]) by {
        assert n[0] in n && s[0] == n[0];
      }
      assert s[1..] == rest;
      assert s == [n[0]] + rest;
    }
  }

  /** No "Paybill" starts before the one that follows a plain name. */
  lemma PaybillWordFirst(n: string)
    requires PlainName(n)
    ensures var x := n + " Paybill";
      IndexOfCI(x, "paybill account").None? && IndexOfCI(x, "paybill") == Some(|n| + 1)
  {
    var x := n + " Paybill";
    forall q | 0 <= q < |n| + 1 ensures !AtCI(x, q, "paybill account") && !AtCI(x, q, "paybill") {
      NoPaybillBefore(n, q);
    }
    assert !AtCI(x, |n| + 1, "paybill account");
    PaybillAtWord(n);
  }

  lemma NoPaybillBefore(n: string, q: nat)
    requires PlainName(n) && q < |n| + 1
    ensures !AtCI(n + " Paybill", q, "paybill account") && !AtCI(n + " Paybill", q, "paybill")
  {
    var x := n + " Paybill";
    if q < |n| {
      assert x[q] == n[q];
      if q + 1 < |n| {
        assert x[q + 1] == n[q + 1] && !PaybillPair(n[q], n[q + 1]);
      } else {
        assert x[q + 1] == ' ';
      }
      NotKeywordAt(x, q, "paybill account");
      NotKeywordAt(x, q, "paybill");
    } else {
      assert x[q] == ' ';
      NotAtCI(x, q, "paybill account");
      NotAtCI(x, q, "paybill");
    }
  }

  lemma PaybillAtWord(n: string)
    ensures AtCI(n + " Paybill", |n| + 1, "paybill")
  {
    var x := n + " Paybill";
    forall k | 0 <= k < 7 ensures Lower(x[|n| + 1 + k]) == Lower("paybill"[k]) {
      assert x[|n| + 1 + k] == "Paybill"[k];
    }
  }

  /** The clean-up cuts the word "Paybill" after a plain name, and the space
      before it. */
  lemma CleanPaybillWord(n: string)
    requires PlainName(n)
    ensures CleanDestination(n + " Paybill") == n
  {
    var x := n + " Paybill";
    TrimPaybillText(n);
    CollapsePaybillText(n);
    CutPaybill(n);
    TrimSpaceAfter(n);
  }

  lemma TrimPaybillText(n: string)
    requires PlainName(n)
    ensures Trim(n + " Paybill") == n + " Paybill"
  {
    var x := n + " Paybill";
    assert x[0] == n[0] && n[0] in n;
    assert x[|x| - 1] == 'l';
    TrimStartOfNonSpace(x);
    TrimEndOfNonSpace(x);
  }

  lemma CollapsePaybillText(n: string)
    requires PlainName(n)
    ensures CollapseSpaces(n + " Paybill") == n + " Paybill"
  {
    var w := "Paybill";
    assert forall c :: c in w ==> !IsSpace(c);
    assert n + " Paybill" == n + " " + w;
    CollapseTwoWords(n, w);
  }

  lemma CutPaybill(n: string)
    requires PlainName(n)
    ensures ReplaceFirstCI(ReplaceFirstCI(n + " Paybill", "paybill account", ""), "paybill", "") == n + " "
  {
    var x := n + " Paybill";
    PaybillWordFirst(n);
    assert ReplaceFirstCI(x, "paybill account", "") == x;
    assert x[..|n| + 1] == n + " " && x[|n| + 8..] == [];
  }

  lemma TrimSpaceAfter(n: string)
    requires PlainName(n)
    ensures Trim(n + " ") == n
  {
    var y := n + " ";
    assert n[0] in n && n[|n| - 1] in n;
    assert TrimStart(y) == y by {
      TrimStartOfNonSpace(y);
    }
    assert TrimEnd(y) == n by {
      assert y[..|y| - 1] == n && IsSpace(y[|y| - 1]);
      TrimEndOfNonSpace(n);
    }
  }

  /** A paybill message "paid to NAME for account ACCOUNT" yields the sender
      as payer and "NAME - Account No: ACCOUNT" as payee. */
  lemma PaybillMessage(n: string, a: string, sender: string)
    requires PlainName(n) && Account(a)
    ensures EntitiesOf("paid to " + n + " for account " + a, sender) == (sender, n + " - Account No: " + a)
  {
    var s := "paid to " + n + " for account " + a;
    LaidOut(n, a);
    forall q | 8 < q < 8 + |n| ensures Pattern1Tail(s, 8, q).None? {
      NoTailInsideName(s, n, q);
    }
    assert n[0] in n;
    Pattern1Of(s, n, a);
    CleanPlainName(n);
  }

  /** With the word "Paybill" after the name, the word is cut from the
      payee: "paid to NAME Paybill for account ACCOUNT" yields
      "NAME - Account No: ACCOUNT". */
  lemma PaybillWordMessage(n: string, a: string, sender: string)
    requires PlainName(n) && Account(a)
    ensures EntitiesOf("paid to " + n + " Paybill for account " + a, sender) == (sender, n + " - Account No: " + a)
  {
    var g := n + " Paybill";
    var s := "paid to " + g + " for account " + a;
    assert "paid to " + n + " Paybill for account " + a == s;
    PaybillWordGroup(n, a);
    Pattern1Of(s, g, a);
    CleanPaybillWord(n);
  }

  /** "paid to NAME Paybill for account ACCOUNT" is read by the first
      pattern with the group "NAME Paybill". */
  lemma PaybillWordGroup(n: string, a: string)
    requires PlainName(n) && Account(a)
    ensures NameGroup("paid to " + (n + " Paybill") + " for account " + a, n + " Paybill", a)
  {
    var g := n + " Paybill";
    var s := "paid to " + g + " for account " + a;
    LaidOut(g, a);
    var m := 8 + |n|;
    assert s[8..m] == n && PaybillAt(s, m) by {
      PaybillWordLaid(n, a);
    }
    forall q | 8 < q < 8 + |g| ensures Pattern1Tail(s, 8, q).None? {
      if q < m {
        NoTailInsideName(s, n, q);
      } else {
        NoTailInPaybillWord(s, m, q);
      }
    }
    PaybillWordChars(n);
  }

  lemma PaybillWordLaid(n: string, a: string)
    requires |n| >= 1
    ensures var s := "paid to " + (n + " Paybill") + " for account " + a;
      s[8..8 + |n|] == n && PaybillAt(s, 8 + |n|)
  {
    var g := n + " Paybill";
    var s := "paid to " + g + " for account " + a;
    LaidOut(g, a);
    var m := 8 + |n|;
    assert s[8..m] == g[..|n|];
    assert s[m..m + 8] == g[|n|..] == " Paybill";
    assert s[m + 8] == ' ';
  }

  lemma PaybillWordChars(n: string)
    requires PlainName(n)
    ensures var g := n + " Paybill"; !IsSpace(g[0]) && forall c :: c in g ==> IsBodyChar(c)
  {
    var g := n + " Paybill";
    assert g[0] == n[0] && n[0] in n;
    forall c | c in g ensures IsBodyChar(c) {
      var k :| 0 <= k < |g| && g[k] == c;
      if k < |n| {
        assert g[k] == n[k] && n[k] in n;
      } else {
        assert g[k] == " Paybill"[k - |n|];
      }
    }
  }

  /** "paid to KPLC Paybill for account 123" is paid to
      "KPLC - Account No: 123", by the sender. */
  lemma KplcPaybill(n: string, a: string, sender: string)
    requires n == "KPLC" && a == "123"
    ensures EntitiesOf("paid to " + n + " Paybill for account " + a, sender) == (sender, "KPLC - Account No: 123")
  {
    assert PlainName(n) by {
      assert !KeywordPair('K', 'P') && !KeywordPair('P', 'L') && !KeywordPair('L', 'C');
    }
    assert Account(a);
    PaybillWordMessage(n, a, sender);
    KplcPayee(n, a);
  }

  lemma KplcPayee(n: string, a: string)
    requires n == "KPLC" && a == "123"
    ensures n + " - Account No: " + a == "KPLC - Account No: 123"
  {
    var b := " - Account No: ";
    assert n + b == "KPLC - Account No: ";
  }
}
