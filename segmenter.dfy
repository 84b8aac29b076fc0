/** `parseChatToObjects` (app/api/extract/route.ts): a WhatsApp export is cut
    into messages. A line that starts with a "D/M/Y, H:MM ... - Sender: "
    header opens a message; the lines after it, up to the next header, are
    its continuation; lines before the first header are dropped.
 */
module Segmenter {
  import opened Scan
  import opened Text
  import opened DateTime

  /** The four captures of the header pattern, and the rest of the line. */
  datatype HeaderParts = HeaderParts(date: string, time: string, sender: string, content: string)

  /** A message as the segmenter produces it. */
  datatype ChatMessage = ChatMessage(date: string, sender: string, content: string, original: string)

  /** `\d{1,2}` followed by `sep`, from `i`: the position after `sep`. When two
      digits are followed by something else, one digit cannot be followed by
      `sep` either, since a digit follows it. */
  function ShortNumber(s: string, i: nat, sep: char): (r: Option<nat>)
    ensures r.Some? ==> i + 2 <= r.value <= i + 3 && r.value <= |s| && s[r.value - 1] == sep
    ensures r.Some? ==> forall k :: i <= k < r.value - 1 ==> IsDigit(s[k])
  {
    if i < |s| && IsDigit(s[i]) then
      var e := if i + 1 < |s| && IsDigit(s[i + 1]) then i + 2 else i + 1;
      if e < |s| && s[e] == sep then Some(e + 1) else None
    else None
  }

  /** `\d{2,4},` from `i`: the position of the comma. */
  function YearEnd(s: string, i: nat): (r: Option<nat>)
    requires i <= |s|
    ensures r.Some? ==> i + 2 <= r.value <= i + 4 && r.value < |s| && s[r.value] == ','
  {
    var e := RunEnd(s, i, IsDigit);
    if 2 <= e - i <= 4 && e < |s| && s[e] == ',' then Some(e) else None
  }

  /** The lazy `(.*?):` of the sender, from `z`: the first colon before any
      line terminator. */
  function SenderEnd(s: string, z: nat): (r: Option<nat>)
    requires z <= |s|
    ensures r.Some? ==> z <= r.value < |s| && s[r.value] == ':'
  {
    var e := RunEnd(s, z, NotLineTerminator);
    var f: nat -> Option<nat> := (w: nat) => if z <= w < |s| && s[w] == ':' then Some(w) else None;
    FirstValue(z, e, f)
  }

  /** The rest of the header once the lazy time has stopped at `x`:
      `\s*-\s*(.*?):\s*`. The greedy `\s*` after the dash is the only way
      the sender can match: starting the sender earlier only adds spaces
      before the same first colon. */
  function AfterTime(s: string, t0: nat, x: nat, date: string): (r: Option<HeaderParts>)
    requires t0 <= x <= |s|
  {
    var y := SkipSpaces(s, x);
    if y < |s| && s[y] == '-' then
      var z := SkipSpaces(s, y + 1);
      match SenderEnd(s, z)
      case Some(w) => Some(HeaderParts(date, s[t0..x], s[z..w], s[SkipSpaces(s, w + 1)..]))
      case None => None
    else None
  }

  /** The header pattern, anchored at the start of the line. */
  function Header(s: string): (r: Option<HeaderParts>)
  {
    match ShortNumber(s, 0, '/')
    case None => None
    case Some(a) =>
      match ShortNumber(s, a, '/')
      case None => None
      case Some(b) =>
        match YearEnd(s, b)
        case None => None
        case Some(c) => TimeFrom(s, c)
  }

  /** `,\s*(\d{1,2}:\d{2}` after the year, whose comma is at `c`, and the
      rest of the header. */
  function TimeFrom(s: string, c: nat): (r: Option<HeaderParts>)
    requires c < |s|
  {
    var t0 := SkipSpaces(s, c + 1);
    match ShortNumber(s, t0, ':')
    case None => None
    case Some(m) =>
      if m + 2 <= |s| && IsDigit(s[m]) && IsDigit(s[m + 1]) then TimeAndRest(s, c, t0, m + 2)
      else None
  }

  /** The lazy `.*?` of the time from `u`, then the rest of the header: the
      first end of the time after which the rest matches. */
  function TimeAndRest(s: string, c: nat, t0: nat, u: nat): (r: Option<HeaderParts>)
    requires c <= |s| && t0 <= u <= |s|
  {
    var f: nat -> Option<HeaderParts> := (x: nat) => if t0 <= x <= |s| then AfterTime(s, t0, x, s[..c]) else None;
    FirstValue(u, RunEnd(s, u, NotLineTerminator), f)
  }

  /** What a header line opens: the formatted date, the sender and the first
      line of content. */
  datatype Opening = Opening(date: string, sender: string, first: string)

  /** The header test of the segmenter, with the date formatted as the
      message is opened. */
  function Opens(line: string): (r: Option<Opening>)
    ensures r.Some? <==> Header(line).Some?
  {
    match Header(line)
    case Some(h) => Some(Opening(FormatDateTime(h.date, h.time), h.sender, h.content))
    case None => None
  }

  /** A header test. The block structure below is stated for any such test
      and used with `Opens`. */
  type Parser = string -> Option<Opening>

  /** The first header line at or after `i`, or the end. */
  function NextHeader(parse: Parser, lines: seq<string>, i: nat): (j: nat)
    requires i <= |lines|
    ensures i <= j <= |lines|
    ensures forall k :: i <= k < j ==> parse(lines[k]).None?
    ensures j < |lines| ==> parse(lines[j]).Some?
    decreases |lines| - i
  {
    if i == |lines| || parse(lines[i]).Some? then i else NextHeader(parse, lines, i + 1)
  }

  /** The message that the header line at `i` opens: its content is the rest
      of the header line and the continuation lines up to the next header,
      joined by line breaks. */
  function Block(parse: Parser, lines: seq<string>, i: nat): ChatMessage
    requires i < |lines| && parse(lines[i]).Some?
  {
    var h := parse(lines[i]).value;
    var j := NextHeader(parse, lines, i + 1);
    ChatMessage(h.date, h.sender, Join([h.first] + lines[i + 1..j], "\n"), lines[i])
  }

  /** The messages of the header lines at or after `i`, in order. */
  function BlocksFrom(parse: Parser, lines: seq<string>, i: nat): seq<ChatMessage>
    requires i <= |lines|
    decreases |lines| - i
  {
    var j := NextHeader(parse, lines, i);
    if j == |lines| then [] else [Block(parse, lines, j)] + BlocksFrom(parse, lines, j + 1)
  }

  /** Skipping lines that are not headers does not change the blocks ahead. */
  lemma BlocksSkip(parse: Parser, lines: seq<string>, a: nat, b: nat)
    requires a <= b <= |lines|
    requires forall k :: a <= k < b ==> parse(lines[k]).None?
    ensures NextHeader(parse, lines, a) == NextHeader(parse, lines, b)
    ensures BlocksFrom(parse, lines, a) == BlocksFrom(parse, lines, b)
  {
    NextHeaderSkip(parse, lines, a, b);
  }

  lemma {:induction false} NextHeaderSkip(parse: Parser, lines: seq<string>, a: nat, b: nat)
    requires a <= b <= |lines|
    requires forall k :: a <= k < b ==> parse(lines[k]).None?
    ensures NextHeader(parse, lines, a) == NextHeader(parse, lines, b)
    decreases b - a
  {
    if a < b {
      assert parse(lines[a]).None?;
      NextHeaderSkip(parse, lines, a + 1, b);
    }
  }

  /** The blocks from a header line start with that line's block. */
  lemma BlocksAtHeader(parse: Parser, lines: seq<string>, h: nat)
    requires h < |lines| && parse(lines[h]).Some?
    ensures BlocksFrom(parse, lines, h) == [Block(parse, lines, h)] + BlocksFrom(parse, lines, h + 1)
  {
    assert NextHeader(parse, lines, h) == h;
  }

  /** The block of the header at `h` when the next header is at `i`. */
  lemma BlockUpTo(parse: Parser, lines: seq<string>, h: nat, i: nat)
    requires h < i <= |lines| && parse(lines[h]).Some?
    requires forall k :: h < k < i ==> parse(lines[k]).None?
    requires i < |lines| ==> parse(lines[i]).Some?
    ensures BlocksFrom(parse, lines, h) == [Block(parse, lines, h)] + BlocksFrom(parse, lines, i)
    ensures Block(parse, lines, h) == ChatMessage(parse(lines[h]).value.date, parse(lines[h]).value.sender,
      Join([parse(lines[h]).value.first] + lines[h + 1..i], "\n"), lines[h])
  {
    BlocksAtHeader(parse, lines, h);
    BlocksSkip(parse, lines, h + 1, i);
    assert NextHeader(parse, lines, i) == i;
  }

  /** The state of the segmentation loop after the first `i` lines: with no
      message open, no header has been seen; with one open, it was opened by
      the header at `h`, the buffer holds its lines so far, and the messages
      closed so far followed by the blocks from `h` are all the blocks. */
  ghost predicate Scanned(parse: Parser, lines: seq<string>, i: nat, current: Option<Opening>, original: string,
                          buffer: seq<string>, h: nat, messages: seq<ChatMessage>)
  {
    i <= |lines|
    && (current.None? ==> messages == [] && forall k :: 0 <= k < i ==> parse(lines[k]).None?)
    && (current.Some? ==>
          h < i && parse(lines[h]) == current && original == lines[h]
          && buffer == [current.value.first] + lines[h + 1..i]
          && (forall k :: h < k < i ==> parse(lines[k]).None?)
          && messages + BlocksFrom(parse, lines, h) == BlocksFrom(parse, lines, 0))
  }

  /** A header line closes the open message, if any, and opens its own. */
  lemma ScanHeader(parse: Parser, lines: seq<string>, i: nat, current: Option<Opening>, original: string,
                   buffer: seq<string>, h: nat, messages: seq<ChatMessage>)
    requires Scanned(parse, lines, i, current, original, buffer, h, messages)
    requires i < |lines| && parse(lines[i]).Some?
    ensures current.Some? ==> Scanned(parse, lines, i + 1, parse(lines[i]), lines[i], [parse(lines[i]).value.first], i,
      messages + [ChatMessage(current.value.date, current.value.sender, Join(buffer, "\n"), original)])
    ensures current.None? ==> Scanned(parse, lines, i + 1, parse(lines[i]), lines[i], [parse(lines[i]).value.first], i, messages)
  {
    if current.Some? {
      CloseAndOpen(parse, lines, i, current.value, original, buffer, h, messages);
    } else {
      FirstOpen(parse, lines, i);
    }
  }

  lemma CloseAndOpen(parse: Parser, lines: seq<string>, i: nat, cur: Opening, original: string,
                     buffer: seq<string>, h: nat, messages: seq<ChatMessage>)
    requires Scanned(parse, lines, i, Some(cur), original, buffer, h, messages)
    requires i < |lines| && parse(lines[i]).Some?
    ensures Scanned(parse, lines, i + 1, parse(lines[i]), lines[i], [parse(lines[i]).value.first], i,
      messages + [ChatMessage(cur.date, cur.sender, Join(buffer, "\n"), original)])
  {
    var m := ChatMessage(cur.date, cur.sender, Join(buffer, "\n"), original);
    BlockUpTo(parse, lines, h, i);
    assert Block(parse, lines, h) == m;
    assert (messages + [m]) + BlocksFrom(parse, lines, i) == messages + ([m] + BlocksFrom(parse, lines, i));
    assert lines[i + 1..i + 1] == [];
  }

  lemma FirstOpen(parse: Parser, lines: seq<string>, i: nat)
    requires i < |lines| && parse(lines[i]).Some?
    requires forall k :: 0 <= k < i ==> parse(lines[k]).None?
    ensures Scanned(parse, lines, i + 1, parse(lines[i]), lines[i], [parse(lines[i]).value.first], i, [])
  {
    BlocksSkip(parse, lines, 0, i);
    assert lines[i + 1..i + 1] == [];
  }

  /** A line that is not a header continues the open message, if any. */
  lemma ScanLine(parse: Parser, lines: seq<string>, i: nat, current: Option<Opening>, original: string,
                 buffer: seq<string>, h: nat, messages: seq<ChatMessage>)
    requires Scanned(parse, lines, i, current, original, buffer, h, messages)
    requires i < |lines| && parse(lines[i]).None?
    ensures current.Some? ==> Scanned(parse, lines, i + 1, current, original, buffer + [lines[i]], h, messages)
    ensures current.None? ==> Scanned(parse, lines, i + 1, current, original, buffer, h, messages)
  {
    if current.Some? {
      assert lines[h + 1..i + 1] == lines[h + 1..i] + [lines[i]];
    }
  }

  /** At the end of the lines the open message, if any, is the last block. */
  lemma ScanEnd(parse: Parser, lines: seq<string>, current: Option<Opening>, original: string,
                buffer: seq<string>, h: nat, messages: seq<ChatMessage>)
    requires Scanned(parse, lines, |lines|, current, original, buffer, h, messages)
    ensures current.Some? ==>
      messages + [ChatMessage(current.value.date, current.value.sender, Join(buffer, "\n"), original)] == BlocksFrom(parse, lines, 0)
    ensures current.None? ==> messages == BlocksFrom(parse, lines, 0)
  {
    if current.Some? {
      BlockUpTo(parse, lines, h, |lines|);
      assert NextHeader(parse, lines, |lines|) == |lines|;
    } else {
      BlocksSkip(parse, lines, 0, |lines|);
    }
  }

  /** The loop of `parseChatToObjects` over the lines, with the open
      message and its buffered lines as the only state. */
  method SegmentLines(parse: Parser, lines: seq<string>) returns (messages: seq<ChatMessage>)
    ensures messages == BlocksFrom(parse, lines, 0)
  {
    messages := [];
    var current: Option<Opening> := None;
    var original := "";
    var buffer: seq<string> := [];
    ghost var h: nat := 0;
    var i := 0;
    while i < |lines|
      invariant Scanned(parse, lines, i, current, original, buffer, h, messages)
    {
      var line := lines[i];
      var parsed := parse(line);
      if parsed.Some? {
        ScanHeader(parse, lines, i, current, original, buffer, h, messages);
        if current.Some? {
          messages := messages + [ChatMessage(current.value.date, current.value.sender, Join(buffer, "\n"), original)];
        }
        buffer := [parsed.value.first];
        current := parsed;
        original := line;
        h := i;
      } else {
        ScanLine(parse, lines, i, current, original, buffer, h, messages);
        if current.Some? {
          buffer := buffer + [line];
        }
      }
      i := i + 1;
    }
    ScanEnd(parse, lines, current, original, buffer, h, messages);
    if current.Some? {
      messages := messages + [ChatMessage(current.value.date, current.value.sender, Join(buffer, "\n"), original)];
    }
  }

  /** The header lines at or after `i`, in order. */
  function HeaderLines(parse: Parser, lines: seq<string>, i: nat): seq<string>
    requires i <= |lines|
    decreases |lines| - i
  {
    if i == |lines| then []
    else if parse(lines[i]).Some? then [lines[i]] + HeaderLines(parse, lines, i + 1)
    else HeaderLines(parse, lines, i + 1)
  }

  function Originals(ms: seq<ChatMessage>): (r: seq<string>)
    ensures |r| == |ms| && forall k :: 0 <= k < |ms| ==> r[k] == ms[k].original
  {
    if ms == [] then [] else [ms[0].original] + Originals(ms[1..])
  }

  /** Every header line opens exactly one message, in order, and no other
      line does: lines before the first header open nothing. */
  lemma {:induction false} OneMessagePerHeader(parse: Parser, lines: seq<string>, i: nat)
    requires i <= |lines|
    ensures Originals(BlocksFrom(parse, lines, i)) == HeaderLines(parse, lines, i)
    decreases |lines| - i
  {
    if i < |lines| {
      OneMessagePerHeader(parse, lines, i + 1);
      if parse(lines[i]).Some? {
        BlocksAtHeader(parse, lines, i);
        var b := Block(parse, lines, i);
        var rest := BlocksFrom(parse, lines, i + 1);
        assert Originals([b] + rest) == [b.original] + Originals(rest) by {
          assert ([b] + rest)[1..] == rest;
        }
      } else {
        BlocksSkip(parse, lines, i, i + 1);
      }
    }
  }

  /** Each message's content is the header line's own content, then each
      continuation line after a line break. */
  lemma BlockContent(parse: Parser, lines: seq<string>, h: nat)
    requires h < |lines| && parse(lines[h]).Some?
    ensures var b := Block(parse, lines, h);
      var j := NextHeader(parse, lines, h + 1);
      b.original == lines[h] && b.date == parse(lines[h]).value.date && b.sender == parse(lines[h]).value.sender
      && b.content == parse(lines[h]).value.first + JoinTail(lines[h + 1..j], "\n")
  {
    var j := NextHeader(parse, lines, h + 1);
    JoinCons(parse(lines[h]).value.first, lines[h + 1..j], "\n");
  }

  /** What the segmenter yields, stated block by block. */
  function Segment(lines: seq<string>): seq<ChatMessage> {
    BlocksFrom(Opens, lines, 0)
  }

  /** `parseChatToObjects`. */
  method ParseChatToObjects(text: string) returns (messages: seq<ChatMessage>)
    ensures messages == Segment(Split(text, '\n'))
  {
    messages := SegmentLines(Opens, Split(text, '\n'));
  }
}
