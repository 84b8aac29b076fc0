/** `formatDateTime` (app/api/extract/route.ts): the date and time of a
    WhatsApp header become "YYYY-MM-DD time", with the informal time words of
    some exports ("in the afternoon") turned into AM or PM.
 */
module DateTime {
  import opened Scan
  import opened Text

  /** `replace(/[\s-]/g, " ")`. */
  function Blank(s: string): (r: string)
    ensures |r| == |s|
    ensures forall k :: 0 <= k < |r| ==> r[k] == if IsSpace(s[k]) || s[k] == '-' then ' ' else s[k]
  {
    if s == [] then []
    else [if IsSpace(s[0]) || s[0] == '-' then ' ' else s[0]] + Blank(s[1..])
  }

  /** The four informal phrases, each replaced at its first occurrence. */
  function Informal(t: string): string {
    ReplaceFirst(ReplaceFirst(ReplaceFirst(ReplaceFirst(t, "in the morning", "AM"), "in the afternoon", "PM"), "at night", "PM"), "in the evening", "PM")
  }

  /** A time as the clean-up leaves it: no dash, every whitespace character a
      plain space, none at either end. */
  predicate CleanTimeText(r: string) {
    (forall c :: c in r ==> c != '-' && (IsSpace(c) ==> c == ' '))
    && (r != [] ==> !IsSpace(r[0]) && !IsSpace(r[|r| - 1]))
  }

  /** The clean-up of the time in `formatDateTime`. */
  function CleanTime(t: string): (r: string)
    ensures CleanTimeText(r)
  {
    var b := Blank(Informal(t));
    BlankTrimmed(b);
    Trim(b)
  }

  /** Trimming keeps the character facts of blanked text. */
  lemma BlankTrimmed(b: string)
    requires forall k :: 0 <= k < |b| ==> b[k] != '-' && (IsSpace(b[k]) ==> b[k] == ' ')
    ensures CleanTimeText(Trim(b))
  {
    var r := Trim(b);
    var i, j :| 0 <= i <= j <= |b| && r == b[i..j];
    SliceBlank(b, i, j);
  }

  lemma SliceBlank(b: string, i: nat, j: nat)
    requires i <= j <= |b|
    requires forall k :: 0 <= k < |b| ==> b[k] != '-' && (IsSpace(b[k]) ==> b[k] == ' ')
    ensures forall c :: c in b[i..j] ==> c != '-' && (IsSpace(c) ==> c == ' ')
  {
    forall c | c in b[i..j] ensures c != '-' && (IsSpace(c) ==> c == ' ') {
      var k :| 0 <= k < j - i && b[i..j][k] == c;
      assert b[i + k] == c;
    }
  }

  /** A time that is already clean and has none of the informal phrases is
      left as it is. */
  lemma CleanTimeKeepsPlainTime(t: string)
    requires CleanTimeText(t)
    requires forall q :: 0 <= q <= |t| ==>
      !At(t, q, "in the morning") && !At(t, q, "in the afternoon") && !At(t, q, "at night") && !At(t, q, "in the evening")
    ensures CleanTime(t) == t
  {
    assert Informal(t) == t;
    forall k | 0 <= k < |t| ensures Blank(t)[k] == t[k] {
      assert t[k] in t;
    }
    assert Blank(t) == t;
    TrimStartOfNonSpace(t);
    TrimEndOfNonSpace(t);
  }

  /** A clock reading such as "1:22": digits and colons. */
  predicate Clock(h: string) {
    |h| >= 1 && forall c :: c in h ==> IsDigit(c) || c == ':'
  }

  /** A literal does not occur in a text that lacks its first character. */
  lemma NoFirstChar(s: string, lit: string)
    requires |lit| >= 1 && forall c :: c in s ==> c != lit[0]
    ensures IndexOf(s, lit).None?
  {
    forall q | 0 <= q <= |s| ensures !At(s, q, lit) {
      if q + |lit| <= |s| {
        assert s[q..q + |lit|][0] == s[q] && s[q] in s;
      }
    }
  }

  /** The first occurrence of a literal that starts with a character the
      text holds nowhere before it. */
  lemma FirstAt(s: string, q: nat, lit: string)
    requires |lit| >= 1 && q + |lit| <= |s| && s[q..q + |lit|] == lit
    requires forall k :: 0 <= k < q ==> s[k] != lit[0]
    ensures IndexOf(s, lit) == Some(q)
  {
    assert At(s, q, lit);
    forall k | 0 <= k < q ensures !At(s, k, lit) {
      if k + |lit| <= |s| {
        assert s[k..k + |lit|][0] == s[k];
      }
    }
  }

  /** The characters of `h + " in the afternoon"`: an "i" only where the
      phrase starts, and the phrase's eighth character an "a". */
  lemma AfternoonLaid(h: string)
    requires Clock(h)
    ensures var x := h + " in the afternoon"; var p := |h| + 1;
      |x| == p + 16 && x[p..] == "in the afternoon" && x[p + 7] == 'a'
      && forall k :: 0 <= k < |x| && k != p ==> x[k] != 'i'
  {
    var x := h + " in the afternoon";
    var p := |h| + 1;
    forall k | 0 <= k < |x| && k != p ensures x[k] != 'i' {
      if k < |h| {
        assert x[k] == h[k] && h[k] in h;
      } else {
        assert x[k] == " in the afternoon"[k - |h|];
      }
    }
  }

  /** "in the morning" is not in `h + " in the afternoon"`, and
      "in the afternoon" first occurs after the space. */
  lemma AfternoonFound(h: string)
    requires Clock(h)
    ensures var x := h + " in the afternoon";
      IndexOf(x, "in the morning").None? && IndexOf(x, "in the afternoon") == Some(|h| + 1)
  {
    var x := h + " in the afternoon";
    var p := |h| + 1;
    AfternoonLaid(h);
    forall q | 0 <= q <= |x| ensures !At(x, q, "in the morning") {
      if q + 14 <= |x| {
        if q == p {
          assert x[q..q + 14][7] == x[p + 7];
        } else {
          assert x[q..q + 14][0] == x[q];
        }
      }
    }
    FirstAt(x, p, "in the afternoon");
  }

  /** The phrase turns into "PM", and nothing else changes. */
  lemma AfternoonReplaced(h: string)
    requires Clock(h)
    ensures Informal(h + " in the afternoon") == h + " PM"
  {
    var x := h + " in the afternoon";
    var p := |h| + 1;
    AfternoonFound(h);
    AfternoonLaid(h);
    var y := ReplaceFirst(x, "in the afternoon", "PM");
    assert y == h + " PM" by {
      assert x[..p] == h + " " && x[p + 16..] == [];
    }
    assert forall c :: c in y ==> c != 'a' && c != 'i' by {
      forall c | c in y ensures c != 'a' && c != 'i' {
        var k :| 0 <= k < |y| && y[k] == c;
        if k < |h| { assert y[k] == h[k] && h[k] in h; }
      }
    }
    NoFirstChar(y, "at night");
    NoFirstChar(y, "in the evening");
  }

  /** "1:22 in the afternoon" is cleaned to "1:22 PM": an informal phrase
      after a clock reading becomes AM or PM. */
  lemma AfternoonIsPM(h: string)
    requires Clock(h)
    ensures CleanTime(h + " in the afternoon") == h + " PM"
  {
    AfternoonReplaced(h);
    ClockPMClean(h);
  }

  /** Blanking and trimming leave `h + " PM"` as it is. */
  lemma ClockPMClean(h: string)
    requires Clock(h)
    ensures Trim(Blank(h + " PM")) == h + " PM"
  {
    var y := h + " PM";
    assert Blank(y) == y by {
      forall k | 0 <= k < |y| ensures Blank(y)[k] == y[k] {
        if k < |h| { assert y[k] == h[k] && h[k] in h; }
      }
    }
    assert y[0] == h[0] && h[0] in h;
    TrimStartOfNonSpace(y);
    TrimEndOfNonSpace(y);
  }

  /** `padStart(2, "0")`, counting UTF-16 code units as JavaScript does. */
  function PadStart2(x: string): (r: string)
    ensures Utf16Length(x) >= 2 ==> r == x
    ensures Utf16Length(x) < 2 ==> Utf16Length(r) == 2 && EndsWith(r, x)
    ensures forall k :: 0 <= k < |r| - |x| ==> r[k] == '0'
  {
    if Utf16Length(x) >= 2 then x
    else if Utf16Length(x) == 1 then
      assert |x| == 1 && x[0] as int <= 0xFFFF;
      assert Utf16Length("0" + x) == 2 by { assert ("0" + x)[1..] == x; }
      "0" + x
    else
      assert Utf16Length("00") == 2 by { assert "00"[1..] == "0" && "0"[1..] == ""; }
      "00"
  }

  predicate IsDateSep(c: char) { c == '/' || c == '-' }

  /** `formatDateTime(date, time)`: a date of three parts separated by "/" or
      "-" is read as day, month, year and rewritten year first. */
  function FormatDateTime(date: string, time: string): (r: string)
  {
    var parts := SplitWhere(date, IsDateSep);
    if |parts| == 3 then
      parts[2] + "-" + PadStart2(parts[1]) + "-" + PadStart2(parts[0]) + " " + CleanTime(time)
    else date + " " + CleanTime(time)
  }

  predicate NoDateSep(x: string) { forall c :: c in x ==> !IsDateSep(c) }

  /** "D/M/Y" (or with dashes) becomes "Y-MM-DD" and the cleaned time. */
  lemma DayMonthYear(d: string, m: string, y: string, sep: char, time: string)
    requires IsDateSep(sep) && NoDateSep(d) && NoDateSep(m) && NoDateSep(y)
    ensures FormatDateTime(d + [sep] + m + [sep] + y, time)
      == y + "-" + PadStart2(m) + "-" + PadStart2(d) + " " + CleanTime(time)
  {
    var xs := [d, m, y];
    assert Join(xs, [sep]) == d + [sep] + m + [sep] + y by {
      assert xs[1..] == [m, y];
      assert [m, y][1..] == [y];
      assert Join([y], [sep]) == y;
      assert Join([m, y], [sep]) == m + [sep] + y;
      assert Join(xs, [sep]) == d + [sep] + (m + [sep] + y);
    }
    SplitWhereJoin(xs, IsDateSep, sep);
  }

  /** A date with no "/" or "-" is kept as it is, before the cleaned time. */
  lemma UndividedDate(date: string, time: string)
    requires NoDateSep(date)
    ensures FormatDateTime(date, time) == date + " " + CleanTime(time)
  {
    SplitWhereNone(date, IsDateSep);
  }

  /** Each digit is one UTF-16 code unit. */
  lemma {:induction false} Utf16OfDigits(x: string)
    requires forall c :: c in x ==> IsDigit(c)
    ensures Utf16Length(x) == |x|
    decreases |x|
  {
    if x != [] {
      assert x[0] in x;
      assert forall c :: c in x[1..] ==> c in x;
      Utf16OfDigits(x[1..]);
    }
  }

  /** A day or month of one or two digits is padded to exactly two digits. */
  lemma TwoDigits(x: string)
    requires 1 <= |x| <= 2 && forall c :: c in x ==> IsDigit(c)
    ensures |PadStart2(x)| == 2 && forall c :: c in PadStart2(x) ==> IsDigit(c)
  {
    Utf16OfDigits(x);
    if |x| == 1 {
      assert x[0] in x;
      assert PadStart2(x) == "0" + x;
      assert PadStart2(x) == ['0', x[0]];
    }
  }
}
