/**
 The line grammar of an INI, as `scan_layout` reads it (src/config/document.rs), and what a
 document means: the values of each key of each section, in order.
 */
module IniGrammar {
  import opened Wrappers
  import opened Text

  datatype Id = Id(section: string, key: string)

  datatype Kind = Blank | Comment(text: string) | Header(name: string) | Entry(key: string, value: string)

  function SectionName(line: string): Option<string> {
    if line == "" || line[0] != '[' then None
    else
      var at := Find(line[1..], ']');
      if at == |line| - 1 then None else Some(Trim(line[1..][..at]))
  }

  /** Split at the first `=` or `:`. */
  function Assignment(line: string): Option<(string, string)> {
    var equals, colon := Find(line, '='), Find(line, ':');
    var at := if equals < colon then equals else colon;
    if at == |line| then None else Some((Trim(line[..at]), TrimStart(line[at + 1..])))
  }

  predicate IsComment(line: string) {
    line != "" && (line[0] == ';' || line[0] == '#')
  }

  function Classify(line: string): Kind {
    if IsComment(line) then Comment(line)
    else
      match SectionName(line)
      case Some(name) => Header(name)
      case None =>
        match Assignment(line)
        case Some((key, value)) => Entry(key, value)
        case None => Blank
  }

  function KindOf(raw: string): Kind {
    Classify(Trim(raw))
  }

  /** The quote a value leaves open, given the one already open. */
  function UnfinishedQuote(value: string, quote: Option<char>): Option<char>
    decreases |value|
  {
    match quote
    case Some(delimiter) =>
      var at := Find(value, delimiter);
      if at == |value| then Some(delimiter) else UnfinishedQuote(value[at + 1..], None)
    case None =>
      if value == "" || (value[0] != '\'' && value[0] != '"') then None
      else
        var rest := value[1..];
        var at := Find(rest, value[0]);
        if at == |rest| then Some(value[0]) else UnfinishedQuote(rest[at + 1..], None)
  }

  function TrimBreaks(s: string): string {
    if s != "" && (s[|s| - 1] == '\r' || s[|s| - 1] == '\n') then TrimBreaks(s[..|s| - 1]) else s
  }

  /** The line ends in a backslash. */
  predicate Continues(raw: string) {
    EndsWith(TrimBreaks(raw), "\\")
  }

  /** The line is not the beginning of a value that goes on. */
  predicate IsPlain(raw: string) {
    KindOf(raw).Entry? ==> UnfinishedQuote(KindOf(raw).value, None).None? && !Continues(raw)
  }

  /** A line break after a line changes neither what it is nor whether it goes on. */
  lemma LineBreakIsIdle(raw: string, nl: string)
    requires IsNewline(nl)
    ensures KindOf(raw + nl) == KindOf(raw) && (IsPlain(raw + nl) <==> IsPlain(raw))
  {
    TrimDropsNewline(raw, nl);
    if nl == "\n" {
      assert (raw + nl)[..|raw|] == raw;
    } else {
      assert (raw + nl)[..|raw| + 1] == raw + "\r";
      assert TrimBreaks(raw + nl) == TrimBreaks(raw + "\r");
      assert (raw + "\r")[..|raw|] == raw;
    }
  }

  // ---- Any grammar of lines ----------------------------------------------

  /** What a line is, and whether it is complete. What follows holds of every grammar in which
      line breaks do not count. */
  datatype Grammar = Grammar(kind: string -> Kind, plain: string -> bool)

  const INI := Grammar(KindOf, IsPlain)

  ghost predicate IgnoresBreaks(g: Grammar) {
    && (forall raw: string :: g.kind(raw + "\n") == g.kind(raw + "\r\n") == g.kind(raw))
    && (forall raw: string :: g.plain(raw + "\n") == g.plain(raw + "\r\n") == g.plain(raw))
    && g.kind("") == Blank && (forall raw: string :: !g.kind(raw).Entry? ==> g.plain(raw))
  }

  lemma IniIgnoresBreaks()
    ensures IgnoresBreaks(INI)
  {
    forall raw: string
      ensures KindOf(raw + "\n") == KindOf(raw + "\r\n") == KindOf(raw)
      ensures IsPlain(raw + "\n") == IsPlain(raw + "\r\n") == IsPlain(raw)
    {
      LineBreakIsIdle(raw, "\n");
      LineBreakIsIdle(raw, "\r\n");
    }
    assert Trim("") == "";
  }

  lemma BreakIsIdle(g: Grammar, raw: string, nl: string)
    requires IgnoresBreaks(g) && IsNewline(nl)
    ensures g.kind(raw + nl) == g.kind(raw) && g.plain(raw + nl) == g.plain(raw)
  {
  }

  ghost predicate ArePlain(g: Grammar, lines: seq<string>) {
    forall i :: 0 <= i < |lines| ==> g.plain(lines[i])
  }

  // ---- What a document means ---------------------------------------------

  /** The section that the first `k` lines, begun within `section`, end in. */
  function SectionTo(g: Grammar, section: string, lines: seq<string>, k: nat): string
    requires k <= |lines|
  {
    if k == 0 then section
    else
      match g.kind(lines[k - 1])
      case Header(name) => name
      case _ => SectionTo(g, section, lines, k - 1)
  }

  datatype Item = Item(id: Id, value: string)

  function ReadLine(g: Grammar, section: string, raw: string): seq<Item> {
    match g.kind(raw)
    case Entry(key, value) => [Item(Id(section, key), value)]
    case _ => []
  }

  /** The assignments of the first `k` lines, in order. */
  function ReadTo(g: Grammar, section: string, lines: seq<string>, k: nat): seq<Item>
    requires k <= |lines|
  {
    if k == 0 then []
    else ReadTo(g, section, lines, k - 1) + ReadLine(g, SectionTo(g, section, lines, k - 1), lines[k - 1])
  }

  function SectionAfter(g: Grammar, section: string, lines: seq<string>): string {
    SectionTo(g, section, lines, |lines|)
  }

  function Read(g: Grammar, section: string, lines: seq<string>): seq<Item> {
    ReadTo(g, section, lines, |lines|)
  }

  /** The values of one key among the first `k` assignments, in order. */
  function ValuesTo(items: seq<Item>, id: Id, k: nat): seq<string>
    requires k <= |items|
  {
    if k == 0 then []
    else ValuesTo(items, id, k - 1) + if items[k - 1].id == id then [items[k - 1].value] else []
  }

  function Values(items: seq<Item>, id: Id): seq<string> {
    ValuesTo(items, id, |items|)
  }

  function CommentsTo(g: Grammar, lines: seq<string>, k: nat): set<string>
    requires k <= |lines|
  {
    set i | 0 <= i < k && g.kind(lines[i]).Comment? :: g.kind(lines[i]).text
  }

  function CommentsOf(g: Grammar, lines: seq<string>): set<string> {
    CommentsTo(g, lines, |lines|)
  }

  lemma {:induction false} ReadPrefix(g: Grammar, section: string, xs: seq<string>, ys: seq<string>, k: nat)
    requires k <= |xs|
    ensures SectionTo(g, section, xs + ys, k) == SectionTo(g, section, xs, k)
    ensures ReadTo(g, section, xs + ys, k) == ReadTo(g, section, xs, k)
  {
    if k > 0 {
      ReadPrefix(g, section, xs, ys, k - 1);
    }
  }

  lemma {:induction false} ReadAppendsTo(g: Grammar, section: string, xs: seq<string>, ys: seq<string>, k: nat)
    requires k <= |ys|
    ensures SectionTo(g, section, xs + ys, |xs| + k) == SectionTo(g, SectionAfter(g, section, xs), ys, k)
    ensures ReadTo(g, section, xs + ys, |xs| + k)
         == Read(g, section, xs) + ReadTo(g, SectionAfter(g, section, xs), ys, k)
  {
    if k == 0 {
      ReadPrefix(g, section, xs, ys, |xs|);
    } else {
      ReadAppendsTo(g, section, xs, ys, k - 1);
    }
  }

  lemma ReadAppends(g: Grammar, section: string, xs: seq<string>, ys: seq<string>)
    ensures SectionAfter(g, section, xs + ys) == SectionAfter(g, SectionAfter(g, section, xs), ys)
    ensures Read(g, section, xs + ys) == Read(g, section, xs) + Read(g, SectionAfter(g, section, xs), ys)
  {
    ReadAppendsTo(g, section, xs, ys, |ys|);
  }

  lemma ReadOne(g: Grammar, section: string, raw: string)
    ensures Read(g, section, [raw]) == ReadLine(g, section, raw)
    ensures SectionAfter(g, section, [raw]) == if g.kind(raw).Header? then g.kind(raw).name else section
  {
    assert ReadTo(g, section, [raw], 0) == [];
    assert [] + ReadLine(g, section, raw) == ReadLine(g, section, raw);
  }

  lemma {:induction false} ValuesPrefix(xs: seq<Item>, ys: seq<Item>, id: Id, k: nat)
    requires k <= |xs|
    ensures ValuesTo(xs + ys, id, k) == ValuesTo(xs, id, k)
  {
    if k > 0 {
      ValuesPrefix(xs, ys, id, k - 1);
    }
  }

  lemma {:induction false} ValuesAppendTo(xs: seq<Item>, ys: seq<Item>, id: Id, k: nat)
    requires k <= |ys|
    ensures ValuesTo(xs + ys, id, |xs| + k) == Values(xs, id) + ValuesTo(ys, id, k)
  {
    if k == 0 {
      ValuesPrefix(xs, ys, id, |xs|);
    } else {
      ValuesAppendTo(xs, ys, id, k - 1);
    }
  }

  lemma ValuesAppend(xs: seq<Item>, ys: seq<Item>, id: Id)
    ensures Values(xs + ys, id) == Values(xs, id) + Values(ys, id)
  {
    ValuesAppendTo(xs, ys, id, |ys|);
  }

  lemma {:induction false} SameKindsReadTheSame(g: Grammar, section: string, xs: seq<string>, ys: seq<string>, k: nat)
    requires k <= |xs| == |ys| && forall i :: 0 <= i < |xs| ==> g.kind(xs[i]) == g.kind(ys[i])
    ensures SectionTo(g, section, xs, k) == SectionTo(g, section, ys, k)
    ensures ReadTo(g, section, xs, k) == ReadTo(g, section, ys, k)
  {
    if k > 0 {
      SameKindsReadTheSame(g, section, xs, ys, k - 1);
    }
  }

  /** Line breaks do not matter to what the lines mean. */
  lemma BrokenReadsTheSame(g: Grammar, section: string, lines: seq<string>, nl: string)
    requires IgnoresBreaks(g) && IsNewline(nl)
    ensures SectionAfter(g, section, Broken(lines, nl)) == SectionAfter(g, section, lines)
    ensures Read(g, section, Broken(lines, nl)) == Read(g, section, lines)
  {
    forall i | 0 <= i < |lines|
      ensures g.kind(Broken(lines, nl)[i]) == g.kind(lines[i])
    {
      BreakIsIdle(g, lines[i], nl);
    }
    SameKindsReadTheSame(g, section, Broken(lines, nl), lines, |lines|);
  }

  // ---- Trailing line breaks ----------------------------------------------

  /** Two texts that mean the same: same assignments, same comments, equally plain. */
  ghost predicate SameMeaning(g: Grammar, xs: seq<string>, ys: seq<string>) {
    && Read(g, "", xs) == Read(g, "", ys) && CommentsOf(g, xs) == CommentsOf(g, ys) && (ArePlain(g, xs) <==> ArePlain(g, ys))
  }

  lemma BlankLineIsIdle(g: Grammar, xs: seq<string>, blank: string)
    requires g.kind(blank) == Blank && g.plain(blank)
    ensures SameMeaning(g, xs + [blank], xs)
  {
    ReadAppends(g, "", xs, [blank]);
    ReadOne(g, SectionAfter(g, "", xs), blank);
    CommentsAppend(g, xs, [blank]);
    assert CommentsOf(g, [blank]) == {};
    PlainAppends(g, xs, [blank]);
  }

  lemma CommentsAppend(g: Grammar, xs: seq<string>, ys: seq<string>)
    ensures CommentsOf(g, xs + ys) == CommentsOf(g, xs) + CommentsOf(g, ys)
  {
    forall text | text in CommentsOf(g, ys)
      ensures text in CommentsOf(g, xs + ys)
    {
      var i :| 0 <= i < |ys| && g.kind(ys[i]).Comment? && g.kind(ys[i]).text == text;
      assert (xs + ys)[|xs| + i] == ys[i];
    }
    forall text | text in CommentsOf(g, xs)
      ensures text in CommentsOf(g, xs + ys)
    {
      var i :| 0 <= i < |xs| && g.kind(xs[i]).Comment? && g.kind(xs[i]).text == text;
      assert (xs + ys)[i] == xs[i];
    }
  }

  lemma PlainAppends(g: Grammar, xs: seq<string>, ys: seq<string>)
    ensures ArePlain(g, xs + ys) <==> ArePlain(g, xs) && ArePlain(g, ys)
  {
    assert forall i :: 0 <= i < |ys| ==> (xs + ys)[|xs| + i] == ys[i];
    assert forall i :: 0 <= i < |xs| ==> (xs + ys)[i] == xs[i];
  }

  lemma LastBreakIsIdle(g: Grammar, xs: seq<string>, last: string, nl: string)
    requires IgnoresBreaks(g) && IsNewline(nl)
    ensures SameMeaning(g, xs + [last + nl], xs + [last])
  {
    BreakIsIdle(g, last, nl);
    ReadAppends(g, "", xs, [last]);
    ReadAppends(g, "", xs, [last + nl]);
    ReadOne(g, SectionAfter(g, "", xs), last);
    ReadOne(g, SectionAfter(g, "", xs), last + nl);
    CommentsAppend(g, xs, [last]);
    CommentsAppend(g, xs, [last + nl]);
    CommentsOfOne(g, last);
    CommentsOfOne(g, last + nl);
    PlainAppends(g, xs, [last]);
    PlainAppends(g, xs, [last + nl]);
  }

  lemma CommentsOfOne(g: Grammar, raw: string)
    ensures CommentsOf(g, [raw]) == if g.kind(raw).Comment? then {g.kind(raw).text} else {}
  {
    assert [raw][0] == raw;
  }

  /** Cutting a string after its last line break: a complete part and an unfinished line. */
  lemma SplitLastLine(s: string) returns (head: string, tail: string)
    ensures s == head + tail && Terminated(head) && '\n' !in tail
  {
    if s == "" || s[|s| - 1] == '\n' {
      head, tail := s, "";
    } else {
      var h, t := SplitLastLine(s[..|s| - 1]);
      head, tail := h, t + [s[|s| - 1]];
    }
  }

  /** Where a line break is added at the end: to the unfinished line, or as a line of its own. */
  lemma LinesWithBreak(s: string, nl: string) returns (head: seq<string>, tail: string)
    requires IsNewline(nl)
    ensures '\n' !in tail && Lines(s) == (if tail == "" then head else head + [tail])
    ensures Lines(s + nl) == head + [tail + nl]
  {
    var front;
    front, tail := SplitLastLine(s);
    head := Lines(front);
    LinesOfConcat(front, tail);
    LinesOfConcat(front, tail + nl);
    LinesOfOne(tail, nl);
    assert s + nl == front + (tail + nl);
    if tail == "" {
      assert s == front;
    } else {
      LinesOfOne(tail, "");
      assert tail + "" == tail;
    }
  }

  /** Removing the line break at the end of a text does not change what it means. */
  lemma LastNewlineIsIdle(g: Grammar, s: string, nl: string)
    requires IgnoresBreaks(g) && IsNewline(nl)
    ensures SameMeaning(g, Lines(s + nl), Lines(s))
  {
    var head, tail := LinesWithBreak(s, nl);
    if tail == "" {
      assert tail + nl == nl;
      BreakIsIdle(g, "", nl);
      assert "" + nl == nl;
      BlankLineIsIdle(g, head, nl);
    } else {
      LastBreakIsIdle(g, head, tail, nl);
    }
  }

  lemma {:induction false} StrippingIsIdle(g: Grammar, s: string, nl: string)
    requires IgnoresBreaks(g) && IsNewline(nl)
    ensures SameMeaning(g, Lines(StripTrailing(s, nl)), Lines(s))
    decreases |s|
  {
    if EndsWith(s, nl) {
      var shorter := s[..|s| - |nl|];
      assert s == shorter + nl;
      StrippingIsIdle(g, shorter, nl);
      LastNewlineIsIdle(g, shorter, nl);
    }
  }
}
