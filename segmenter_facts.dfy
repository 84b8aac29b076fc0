/** Properties of the WhatsApp header scanner: what a well-formed header
    line "D/M/Y, H:MM - Sender: text" is read as. */
module SegmenterFacts {
  import opened Scan
  import opened Text
  import opened DateTime
  import opened Segmenter

  predicate Digits(x: string) { forall c :: c in x ==> IsDigit(c) }

  /** One or two digits followed by `sep` are read up to `sep`. */
  lemma ShortNumberAt(s: string, i: nat, x: string, sep: char)
    requires 1 <= |x| <= 2 && Digits(x) && !IsDigit(sep)
    requires i + |x| < |s| && s[i..i + |x|] == x && s[i + |x|] == sep
    ensures ShortNumber(s, i, sep) == Some(i + |x| + 1)
  {
    assert s[i] == x[0] && x[0] in x;
    if |x| == 2 {
      assert s[i + 1] == x[1] && x[1] in x;
    }
  }

  /** The layout of "DATE, TIME - SENDER: TEXT". */
  predicate Laid(s: string, date: string, time: string, sender: string, text: string) {
    var t0 := |date| + 2;
    var u := t0 + |time|;
    var z := u + 3;
    var w := z + |sender|;
    |s| == w + 2 + |text|
    && s[..|date|] == date && s[|date|..t0] == ", "
    && s[t0..u] == time && s[u..z] == " - "
    && s[z..w] == sender && s[w..w + 2] == ": " && s[w + 2..] == text
  }

  lemma LaidOut(date: string, time: string, sender: string, text: string)
    ensures Laid(date + ", " + time + " - " + sender + ": " + text, date, time, sender, text)
  {
    var s := date + ", " + time + " - " + sender + ": " + text;
    var t0 := |date| + 2;
    var u := t0 + |time|;
    var z := u + 3;
    var w := z + |sender|;
    assert s[..|date|] == date;
    assert s[|date|..t0] == ", ";
    assert s[t0..u] == time;
    assert s[u..z] == " - ";
    assert s[z..w] == sender;
    assert s[w..w + 2] == ": ";
    assert s[w + 2..] == text;
  }

  /** The layout of "D/M/Y". */
  predicate DateLaid(date: string, d: string, m: string, y: string) {
    var a := |d| + 1;
    var b := a + |m| + 1;
    |date| == b + |y|
    && date[..|d|] == d && date[|d|] == '/' && date[a..a + |m|] == m && date[a + |m|] == '/' && date[b..] == y
  }

  lemma DateLaidOut(d: string, m: string, y: string)
    ensures DateLaid(d + "/" + m + "/" + y, d, m, y)
  {
    var date := d + "/" + m + "/" + y;
    var a := |d| + 1;
    assert date[..|d|] == d;
    assert date[a..a + |m|] == m;
    assert date[a + |m| + 1..] == y;
  }

  /** A canonical date: day and month of one or two digits, a year of two
      to four. */
  predicate CanonicalDate(d: string, m: string, y: string) {
    1 <= |d| <= 2 && Digits(d) && 1 <= |m| <= 2 && Digits(m) && 2 <= |y| <= 4 && Digits(y)
  }

  /** The date part is read up to the comma after the year. */
  lemma DateScanned(s: string, date: string, time: string, sender: string, text: string, d: string, m: string, y: string)
    requires Laid(s, date, time, sender, text) && DateLaid(date, d, m, y) && CanonicalDate(d, m, y)
    ensures ShortNumber(s, 0, '/') == Some(|d| + 1)
    ensures ShortNumber(s, |d| + 1, '/') == Some(|d| + |m| + 2)
    ensures YearEnd(s, |d| + |m| + 2) == Some(|date|)
  {
    var a := |d| + 1;
    var b := a + |m| + 1;
    assert s[..|date|] == date;
    assert ShortNumber(s, 0, '/') == Some(a) by {
      assert s[0..|d|] == date[..|d|] == d;
      assert s[|d|] == '/';
      ShortNumberAt(s, 0, d, '/');
    }
    assert ShortNumber(s, a, '/') == Some(b) by {
      assert s[a..a + |m|] == date[a..a + |m|] == m;
      assert s[a + |m|] == '/';
      ShortNumberAt(s, a, m, '/');
    }
    assert s[b..b + |y|] == date[b..] == y;
    assert s[|date|] == ',';
    RunOver(s, b, y, IsDigit);
  }

  /** A canonical time: "H:MM" or "HH:MM". */
  predicate CanonicalTime(hh: string, mm: string) {
    1 <= |hh| <= 2 && Digits(hh) && |mm| == 2 && Digits(mm)
  }

  /** The time is read as "H:MM" and the lazy rest of it ends right there. */
  lemma TimeScanned(s: string, date: string, time: string, sender: string, text: string, hh: string, mm: string)
    requires Laid(s, date, time, sender, text) && time == hh + ":" + mm && CanonicalTime(hh, mm)
    ensures SkipSpaces(s, |date| + 1) == |date| + 2
    ensures ShortNumber(s, |date| + 2, ':') == Some(|date| + 2 + |hh| + 1)
    ensures IsDigit(s[|date| + 2 + |hh| + 1]) && IsDigit(s[|date| + 2 + |hh| + 2])
  {
    var t0 := |date| + 2;
    assert s[t0..t0 + |time|] == time;
    assert s[t0..t0 + |hh|] == hh by { assert time[..|hh|] == hh; }
    assert s[t0 + |hh|] == time[|hh|] == ':';
    assert s[t0] == hh[0] && hh[0] in hh;
    assert s[|date| + 1] == ' ';
    ShortNumberAt(s, t0, hh, ':');
    assert s[t0 + |hh| + 1] == time[|hh| + 1] == mm[0] && mm[0] in mm;
    assert s[t0 + |hh| + 2] == time[|hh| + 2] == mm[1] && mm[1] in mm;
  }

  /** A sender name the header reads whole: no colon, no line break, and not
      starting with a space. */
  predicate PlainSender(n: string) {
    (forall c :: c in n ==> c != ':' && !IsLineTerminator(c)) && (n != [] ==> !IsSpace(n[0]))
  }

  /** The sender ends at the first colon, the one after the name. */
  lemma SenderScanned(s: string, date: string, time: string, sender: string, text: string)
    requires Laid(s, date, time, sender, text) && PlainSender(sender)
    ensures SenderEnd(s, |date| + |time| + 5) == Some(|date| + |time| + 5 + |sender|)
  {
    var z := |date| + |time| + 5;
    var w := z + |sender|;
    assert s[z..w] == sender;
    forall k | z <= k < w ensures s[k] != ':' && !IsLineTerminator(s[k]) {
      assert s[k] == sender[k - z] && sender[k - z] in sender;
    }
    assert s[w..w + 2] == ": ";
    assert s[w] == ':';
    var e := RunEnd(s, z, NotLineTerminator);
    if e < w + 1 { assert false; }
    var f: nat -> Option<nat> := (q: nat) => if z <= q < |s| && s[q] == ':' then Some(q) else None;
    FirstHitAt(z, e, f, w);
  }

  /** The dash between the time and the sender, with a space on each side. */
  lemma DashScanned(s: string, date: string, time: string, sender: string, text: string)
    requires Laid(s, date, time, sender, text) && PlainSender(sender)
    ensures var u := |date| + 2 + |time|;
      SkipSpaces(s, u) == u + 1 && s[u + 1] == '-' && SkipSpaces(s, u + 2) == u + 3
  {
    var u := |date| + 2 + |time|;
    var z := u + 3;
    var w := z + |sender|;
    assert s[u..z] == " - ";
    assert s[u] == ' ' && s[u + 1] == '-' && s[u + 2] == ' ';
    assert s[z..w] == sender && s[w..w + 2] == ": ";
    assert s[z] == if sender == [] then ':' else sender[0];
  }

  /** The text starts right after the space that follows the colon. */
  lemma TextScanned(s: string, date: string, time: string, sender: string, text: string)
    requires Laid(s, date, time, sender, text) && (text != [] ==> !IsSpace(text[0]))
    ensures var w := |date| + |time| + 5 + |sender|;
      SkipSpaces(s, w + 1) == w + 2 && s[w + 2..] == text
  {
    var w := |date| + |time| + 5 + |sender|;
    assert s[w..w + 2] == ": ";
    assert s[w + 1] == ' ';
    if text != [] {
      assert s[w + 2] == text[0];
    }
  }

  /** `\s*-\s*(.*?):\s*` after the time, stated by the positions its
      pieces reach. */
  lemma RestByPieces(s: string, t0: nat, u: nat, z: nat, w: nat, date: string)
    requires t0 <= u && u + 2 <= |s| && SkipSpaces(s, u) == u + 1 && s[u + 1] == '-' && SkipSpaces(s, u + 2) == z
    requires SenderEnd(s, z) == Some(w) && SkipSpaces(s, w + 1) == w + 2
    ensures AfterTime(s, t0, u, date) == Some(HeaderParts(date, s[t0..u], s[z..w], s[w + 2..]))
  {
  }

  /** After the time, " - SENDER: " is read, and the text starts after the
      spaces that follow the colon. */
  lemma RestScanned(s: string, date: string, time: string, sender: string, text: string)
    requires Laid(s, date, time, sender, text) && PlainSender(sender) && (text != [] ==> !IsSpace(text[0]))
    ensures AfterTime(s, |date| + 2, |date| + 2 + |time|, date)
      == Some(HeaderParts(date, time, sender, text))
  {
    DashAndSender(s, date, time, sender, text);
    TextAndSlices(s, date, time, sender, text);
    RestFromPieces(s, date, time, sender, text);
  }

  lemma RestFromPieces(s: string, date: string, time: string, sender: string, text: string)
    requires var u := |date| + 2 + |time|;
      u + 2 <= |s| && SkipSpaces(s, u) == u + 1 && s[u + 1] == '-' && SkipSpaces(s, u + 2) == u + 3
      && SenderEnd(s, u + 3) == Some(u + 3 + |sender|)
    requires var w := |date| + |time| + 5 + |sender|;
      SkipSpaces(s, w + 1) == w + 2 && s[w + 2..] == text
      && s[|date| + 2..|date| + 2 + |time|] == time && s[|date| + |time| + 5..w] == sender
    ensures AfterTime(s, |date| + 2, |date| + 2 + |time|, date)
      == Some(HeaderParts(date, time, sender, text))
  {
    var t0 := |date| + 2;
    var u := t0 + |time|;
    RestOfParts(s, t0, u, u + 3, u + 3 + |sender|, date, time, sender, text);
  }

  lemma DashAndSender(s: string, date: string, time: string, sender: string, text: string)
    requires Laid(s, date, time, sender, text) && PlainSender(sender)
    ensures var u := |date| + 2 + |time|;
      u + 2 <= |s| && SkipSpaces(s, u) == u + 1 && s[u + 1] == '-' && SkipSpaces(s, u + 2) == u + 3
      && SenderEnd(s, u + 3) == Some(u + 3 + |sender|)
  {
    DashScanned(s, date, time, sender, text);
    SenderScanned(s, date, time, sender, text);
  }

  lemma TextAndSlices(s: string, date: string, time: string, sender: string, text: string)
    requires Laid(s, date, time, sender, text) && (text != [] ==> !IsSpace(text[0]))
    ensures var w := |date| + |time| + 5 + |sender|;
      SkipSpaces(s, w + 1) == w + 2 && s[w + 2..] == text
      && s[|date| + 2..|date| + 2 + |time|] == time && s[|date| + |time| + 5..w] == sender
  {
    TextScanned(s, date, time, sender, text);
    LaidSlices(s, date, time, sender, text);
  }

  lemma RestOfParts(s: string, t0: nat, u: nat, z: nat, w: nat, date: string, time: string, sender: string, text: string)
    requires t0 <= u && u + 2 <= |s| && SkipSpaces(s, u) == u + 1 && s[u + 1] == '-' && SkipSpaces(s, u + 2) == z
    requires SenderEnd(s, z) == Some(w) && SkipSpaces(s, w + 1) == w + 2
    requires s[t0..u] == time && s[z..w] == sender && s[w + 2..] == text
    ensures AfterTime(s, t0, u, date) == Some(HeaderParts(date, time, sender, text))
  {
    RestByPieces(s, t0, u, z, w, date);
  }

  lemma LaidSlices(s: string, date: string, time: string, sender: string, text: string)
    requires Laid(s, date, time, sender, text)
    ensures s[|date| + 2..|date| + 2 + |time|] == time
    ensures s[|date| + |time| + 5..|date| + |time| + 5 + |sender|] == sender
  {
  }

  /** The time ends as early as it can: when the rest matches right after
      the minutes, that is the header. */
  lemma TimeAndRestAt(s: string, c: nat, t0: nat, u: nat, p: HeaderParts)
    requires c <= |s| && t0 <= u <= |s|
    requires AfterTime(s, t0, u, s[..c]) == Some(p)
    ensures TimeAndRest(s, c, t0, u) == Some(p)
  {
    var f: nat -> Option<HeaderParts> := (x: nat) => if t0 <= x <= |s| then AfterTime(s, t0, x, s[..c]) else None;
    assert f(u) == Some(p);
    FirstHitAt(u, RunEnd(s, u, NotLineTerminator), f, u);
  }

  /** The time and the rest, stated by the positions their pieces reach. */
  lemma TimeByPieces(s: string, c: nat, t0: nat, m: nat, p: HeaderParts)
    requires c < |s| && t0 == SkipSpaces(s, c + 1) && ShortNumber(s, t0, ':') == Some(m)
    requires m + 2 <= |s| && IsDigit(s[m]) && IsDigit(s[m + 1])
    requires AfterTime(s, t0, m + 2, s[..c]) == Some(p)
    ensures TimeFrom(s, c) == Some(p)
  {
    TimeAndRestAt(s, c, t0, m + 2, p);
  }

  /** The header scanner, stated by the positions its pieces reach. */
  lemma HeaderByPieces(s: string, a: nat, b: nat, c: nat, p: HeaderParts)
    requires ShortNumber(s, 0, '/') == Some(a) && ShortNumber(s, a, '/') == Some(b) && YearEnd(s, b) == Some(c)
    requires TimeFrom(s, c) == Some(p)
    ensures Header(s) == Some(p)
  {
  }

  /** In a line laid out as a canonical header, the time and the rest are
      read as their parts. */
  lemma TimeOfLaid(s: string, date: string, time: string, sender: string, text: string, hh: string, mm: string)
    requires Laid(s, date, time, sender, text) && time == hh + ":" + mm && CanonicalTime(hh, mm)
    requires PlainSender(sender) && (text != [] ==> !IsSpace(text[0]))
    ensures |date| < |s| && TimeFrom(s, |date|) == Some(HeaderParts(date, time, sender, text))
  {
    TimeScanned(s, date, time, sender, text, hh, mm);
    RestScanned(s, date, time, sender, text);
    assert s[..|date|] == date;
    TimeByPieces(s, |date|, |date| + 2, |date| + 2 + |hh| + 1, HeaderParts(date, time, sender, text));
  }

  /** A line laid out as a canonical header is read as its parts. */
  lemma HeaderOfLaid(s: string, date: string, time: string, sender: string, text: string,
                     d: string, m: string, y: string, hh: string, mm: string)
    requires Laid(s, date, time, sender, text) && DateLaid(date, d, m, y) && CanonicalDate(d, m, y)
    requires time == hh + ":" + mm && CanonicalTime(hh, mm)
    requires PlainSender(sender) && (text != [] ==> !IsSpace(text[0]))
    ensures Header(s) == Some(HeaderParts(date, time, sender, text))
  {
    var p := HeaderParts(date, time, sender, text);
    var a, b := |d| + 1, |d| + |m| + 2;
    assert ShortNumber(s, 0, '/') == Some(a) && ShortNumber(s, a, '/') == Some(b) && YearEnd(s, b) == Some(|date|) by {
      DateScanned(s, date, time, sender, text, d, m, y);
    }
    assert TimeFrom(s, |date|) == Some(p) by {
      TimeOfLaid(s, date, time, sender, text, hh, mm);
    }
    HeaderByPieces(s, a, b, |date|, p);
  }

  /** A canonical header line is read as its date, time, sender and text. */
  lemma CanonicalHeader(d: string, m: string, y: string, hh: string, mm: string, sender: string, text: string)
    requires CanonicalDate(d, m, y) && CanonicalTime(hh, mm) && PlainSender(sender)
    requires text != [] ==> !IsSpace(text[0])
    ensures Header(d + "/" + m + "/" + y + ", " + hh + ":" + mm + " - " + sender + ": " + text)
      == Some(HeaderParts(d + "/" + m + "/" + y, hh + ":" + mm, sender, text))
  {
    var date := d + "/" + m + "/" + y;
    var time := hh + ":" + mm;
    var s := date + ", " + time + " - " + sender + ": " + text;
    assert s == d + "/" + m + "/" + y + ", " + hh + ":" + mm + " - " + sender + ": " + text;
    LaidOut(date, time, sender, text);
    DateLaidOut(d, m, y);
    HeaderOfLaid(s, date, time, sender, text, d, m, y, hh, mm);
  }

  /** A canonical header line opens a message dated year first, from its
      sender, whose content starts with the text after the colon. */
  lemma CanonicalOpening(d: string, m: string, y: string, hh: string, mm: string, sender: string, text: string)
    requires CanonicalDate(d, m, y) && CanonicalTime(hh, mm) && PlainSender(sender)
    requires text != [] ==> !IsSpace(text[0])
    ensures Opens(d + "/" + m + "/" + y + ", " + hh + ":" + mm + " - " + sender + ": " + text)
      == Some(Opening(y + "-" + PadStart2(m) + "-" + PadStart2(d) + " " + CleanTime(hh + ":" + mm), sender, text))
  {
    CanonicalHeader(d, m, y, hh, mm, sender, text);
    DayMonthYear(d, m, y, '/', hh + ":" + mm);
  }
}
