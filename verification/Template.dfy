/**
 Reading the template from the default configuration (`template_entries` of
 src/config/document.rs), and when what is read is fit to be merged.
 */
module Template {
  import opened Wrappers
  import opened Text
  import opened IniGrammar
  import opened Merging

  // ---- Trimming ----------------------------------------------------------

  lemma {:induction false} TrimStartIs(s: string) returns (k: nat)
    ensures k <= |s| && TrimStart(s) == s[k..] && (k < |s| ==> !IsSpace(s[k]))
    ensures forall i :: 0 <= i < k ==> IsSpace(s[i])
    decreases |s|
  {
    if s != "" && IsSpace(s[0]) {
      var j := TrimStartIs(s[1..]);
      k := j + 1;
      assert forall i :: 0 < i < k ==> s[i] == s[1..][i - 1];
    } else {
      k := 0;
    }
  }

  lemma {:induction false} TrimEndIs(s: string) returns (k: nat)
    ensures k <= |s| && TrimEnd(s) == s[..k] && (k > 0 ==> !IsSpace(s[k - 1]))
    ensures forall i :: k <= i < |s| ==> IsSpace(s[i])
    decreases |s|
  {
    if s != "" && IsSpace(s[|s| - 1]) {
      var init := s[..|s| - 1];
      k := TrimEndIs(init);
      assert forall i :: k <= i < |s| - 1 ==> s[i] == init[i];
    } else {
      k := |s|;
    }
  }

  /** No space at either end. */
  predicate IsTrimmed(s: string) {
    s == "" || (!IsSpace(s[0]) && !IsSpace(s[|s| - 1]))
  }

  lemma TrimmedStays(s: string)
    requires IsTrimmed(s)
    ensures Trim(s) == s
  {
  }

  lemma TrimIsTrimmed(s: string)
    ensures IsTrimmed(Trim(s)) && Trim(Trim(s)) == Trim(s)
    ensures forall c :: c in Trim(s) ==> c in s
  {
    var k := TrimEndIs(s);
    var j := TrimStartIs(s[..k]);
    TrimmedStays(Trim(s));
  }

  lemma TrimmedLine(raw: string, last: bool)
    requires IsLine(raw, last)
    ensures '\n' !in Trim(raw)
  {
    var k := TrimEndIs(raw);
    var j := TrimStartIs(raw[..k]);
    assert IsSpace('\n');
  }

  lemma TrimmedKind(raw: string)
    ensures KindOf(Trim(raw)) == KindOf(raw)
  {
    TrimIsTrimmed(raw);
  }

  // ---- Reading -----------------------------------------------------------

  /** "; " and the word for "description", with its colon. */
  const MARKER := "; \U{914D}\U{7F6E}\U{8BF4}\U{660E}\U{FF1A}"

  function MarkerOf(id: Id): string {
    MARKER + if id.section == "" then id.key else id.section + "." + id.key
  }

  datatype Reading = Reading(section: string, comments: seq<string>, entries: seq<TemplateEntry>)

  function EntryOf(r: Reading, key: string, line: string): TemplateEntry {
    TemplateEntry(Id(r.section, key), MarkerOf(Id(r.section, key)), r.comments, line)
  }

  function TakeLine(r: Reading, raw: string): Reading {
    match KindOf(raw)
    case Header(name) => Reading(name, [], r.entries)
    case Comment(text) => r.(comments := r.comments + [text])
    case Entry(key, _) => Reading(r.section, [], r.entries + [EntryOf(r, key, Trim(raw))])
    case Blank => r
  }

  function ReadingTo(lines: seq<string>, k: nat): Reading
    requires k <= |lines|
  {
    if k == 0 then Reading("", [], []) else TakeLine(ReadingTo(lines, k - 1), lines[k - 1])
  }

  function EntriesOf(text: string): seq<TemplateEntry> {
    ReadingTo(Lines(text), |Lines(text)|).entries
  }

  method TemplateEntries(text: string) returns (entries: seq<TemplateEntry>)
    ensures entries == EntriesOf(text)
  {
    entries := [];
    var section: string, comments: seq<string> := "", [];
    var lines := Lines(text);
    var k := 0;
    while k < |lines|
      invariant k <= |lines| && ReadingTo(lines, k) == Reading(section, comments, entries)
    {
      var line := Trim(lines[k]);
      var name := SectionName(line);
      var parts := Assignment(line);
      if name.Some? {
        section, comments := name.value, [];
      } else if IsComment(line) {
        comments := comments + [line];
      } else if parts.Some? {
        var id := Id(section, parts.value.0);
        entries := entries + [TemplateEntry(id, MarkerOf(id), comments, line)];
        comments := [];
      }
      k := k + 1;
    }
  }

  // ---- What is read ------------------------------------------------------

  ghost predicate ReadsAsHeader(section: string) {
    '\n' !in section && KindOf("[" + section + "]") == Header(section)
  }

  ghost predicate AreComments(comments: seq<string>) {
    forall i :: 0 <= i < |comments| ==> '\n' !in comments[i] && KindOf(comments[i]) == Comment(comments[i])
  }

  /** All that reading itself sees to. */
  ghost predicate WellRead(e: TemplateEntry) {
    && AreComments(e.comments) && ReadsAsHeader(e.identity.section)
    && '\n' !in e.assignment && KindOf(e.assignment).Entry? && KindOf(e.assignment).key == e.identity.key
  }

  lemma HeaderReads(name: string)
    requires IsTrimmed(name) && ']' !in name
    ensures KindOf("[" + name + "]") == Header(name)
  {
    var line := "[" + name + "]";
    assert !IsSpace('[') && !IsSpace(']');
    TrimmedStays(line);
    assert line[1..] == name + "]";
    FindIn(line[1..], ']', |name|);
    assert line[1..][..|name|] == name;
    TrimmedStays(name);
  }

  lemma NameOfLine(raw: string, last: bool)
    requires IsLine(raw, last) && KindOf(raw).Header?
    ensures ReadsAsHeader(KindOf(raw).name)
  {
    var line := Trim(raw);
    TrimmedLine(raw, last);
    var inside := line[1..][..Find(line[1..], ']')];
    assert forall c :: c in inside ==> c in line;
    TrimIsTrimmed(inside);
    HeaderReads(Trim(inside));
  }

  lemma TakingIsWellRead(r: Reading, raw: string, last: bool)
    requires IsLine(raw, last) && AreComments(r.comments) && ReadsAsHeader(r.section)
    requires forall t :: 0 <= t < |r.entries| ==> WellRead(r.entries[t])
    ensures var r' := TakeLine(r, raw);
      AreComments(r'.comments) && ReadsAsHeader(r'.section) && forall t :: 0 <= t < |r'.entries| ==> WellRead(r'.entries[t])
  {
    TrimmedLine(raw, last);
    TrimmedKind(raw);
    if KindOf(raw).Header? {
      NameOfLine(raw, last);
    }
  }

  lemma {:induction false} ReadingIsWellRead(text: string, k: nat)
    requires k <= |Lines(text)|
    ensures var r := ReadingTo(Lines(text), k);
      AreComments(r.comments) && ReadsAsHeader(r.section) && forall t :: 0 <= t < |r.entries| ==> WellRead(r.entries[t])
  {
    if k == 0 {
      HeaderReads("");
    } else {
      ReadingIsWellRead(text, k - 1);
      LinesAreLines(text, k - 1);
      TakingIsWellRead(ReadingTo(Lines(text), k - 1), Lines(text)[k - 1], k - 1 == |Lines(text)| - 1);
    }
  }

  /** What the default configuration must see to: every assignment is on one line, has its own marker
      in the comments right above it, and no key is assigned twice. */
  ghost predicate Documents(entries: seq<TemplateEntry>) {
    && (forall t :: 0 <= t < |entries| ==> entries[t].marker in entries[t].comments && IsPlain(entries[t].assignment))
    && (forall t, u :: 0 <= t < u < |entries| ==> entries[t].identity != entries[u].identity)
  }

  /** And that is all: the rest of what merging relies on holds of every template as it is read. */
  lemma TemplateIsValid(text: string)
    ensures ValidTemplate(INI, EntriesOf(text)) <==> Documents(EntriesOf(text))
  {
    ReadingIsWellRead(text, |Lines(text)|);
    var entries := EntriesOf(text);
    forall t | 0 <= t < |entries|
      ensures ValidEntry(INI, entries[t]) <==> entries[t].marker in entries[t].comments && IsPlain(entries[t].assignment)
    {
      assert WellRead(entries[t]);
    }
  }
}
