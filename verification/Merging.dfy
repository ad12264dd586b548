/**
 Adding the missing entries of the template to an INI (`merge_missing` and `scan_layout` of
 src/config/document.rs) as a function of the text, and what it does to the text's meaning.

 An insertion offset of the code is always the start of a line or the end of the text;
 here it is the number of lines before it.
 */
module Merging {
  import opened Wrappers
  import opened Text
  import opened IniGrammar

  // ---- The layout --------------------------------------------------------

  /** First line of each key, end of each section, and the comment lines. */
  datatype Layout = Layout(keys: map<Id, nat>, ends: map<string, nat>, comments: set<string>)

  datatype Scanned = Scanned(section: string, quote: Option<char>, continuation: bool, layout: Layout)

  function OrInsert<K, V>(m: map<K, V>, k: K, v: V): map<K, V> {
    if k in m then m else m[k := v]
  }

  function ScanLine(st: Scanned, raw: string, at: nat): Scanned {
    if st.quote.Some? then st.(quote := UnfinishedQuote(Trim(raw), st.quote))
    else if st.continuation then st.(continuation := Continues(raw))
    else
      match KindOf(raw)
      case Comment(text) => st.(layout := st.layout.(comments := st.layout.comments + {text}))
      case Header(name) =>
        st.(section := name, layout := st.layout.(ends := OrInsert(st.layout.ends, st.section, at)))
      case Entry(key, value) =>
        var quote := UnfinishedQuote(value, None);
        st.(quote := quote, continuation := quote.None? && Continues(raw),
            layout := st.layout.(keys := OrInsert(st.layout.keys, Id(st.section, key), at)))
      case Blank => st
  }

  function ScanTo(lines: seq<string>, k: nat): Scanned
    requires k <= |lines|
  {
    if k == 0 then Scanned("", None, false, Layout(map[], map[], {}))
    else ScanLine(ScanTo(lines, k - 1), lines[k - 1], k - 1)
  }

  function LayoutOf(lines: seq<string>): Layout {
    var st := ScanTo(lines, |lines|);
    st.layout.(ends := OrInsert(st.layout.ends, st.section, |lines|))
  }

  function SectionAt(g: Grammar, lines: seq<string>, k: nat): string
    requires k <= |lines|
  {
    SectionTo(g, "", lines, k)
  }

  function IdsOf(items: seq<Item>): set<Id> {
    set i | 0 <= i < |items| :: items[i].id
  }

  lemma IdsAppend(xs: seq<Item>, ys: seq<Item>)
    ensures IdsOf(xs + ys) == IdsOf(xs) + IdsOf(ys)
  {
    assert forall i :: 0 <= i < |ys| ==> (xs + ys)[|xs| + i] == ys[i];
    assert forall i :: 0 <= i < |xs| ==> (xs + ys)[i] == xs[i];
  }

  ghost predicate KeysLocated(g: Grammar, lines: seq<string>, k: nat, keys: map<Id, nat>)
    requires k <= |lines|
  {
    && keys.Keys == IdsOf(ReadTo(g, "", lines, k))
    && (forall id <- keys :: keys[id] < k && SectionAt(g, lines, keys[id]) == id.section)
  }

  ghost predicate EndsLocated(g: Grammar, lines: seq<string>, k: nat, ends: map<string, nat>)
    requires k <= |lines|
  {
    forall s <- ends :: ends[s] <= k && SectionAt(g, lines, ends[s]) == s
  }

  /** Every position the layout gives is within the section it is for. */
  ghost predicate Located(g: Grammar, lines: seq<string>, k: nat, st: Scanned)
    requires k <= |lines|
  {
    && st.quote.None? && !st.continuation && st.section == SectionAt(g, lines, k)
    && KeysLocated(g, lines, k, st.layout.keys) && EndsLocated(g, lines, k, st.layout.ends)
    && (forall id <- st.layout.keys :: id.section in st.layout.ends || id.section == st.section)
    && st.layout.comments == CommentsTo(g, lines, k)
  }

  lemma NextKeyLocated(g: Grammar, lines: seq<string>, k: nat, keys: map<Id, nat>, keys': map<Id, nat>)
    requires k < |lines| && KeysLocated(g, lines, k, keys)
    requires keys' == match g.kind(lines[k])
                      case Entry(key, _) => OrInsert(keys, Id(SectionAt(g, lines, k), key), k)
                      case _ => keys
    ensures KeysLocated(g, lines, k + 1, keys')
  {
    IdsAppend(ReadTo(g, "", lines, k), ReadLine(g, SectionAt(g, lines, k), lines[k]));
    ReadsOneId(g, SectionAt(g, lines, k), lines[k]);
  }

  lemma NextCommentIn(g: Grammar, lines: seq<string>, k: nat)
    requires k < |lines|
    ensures CommentsTo(g, lines, k + 1)
         == CommentsTo(g, lines, k) + if g.kind(lines[k]).Comment? then {g.kind(lines[k]).text} else {}
  {
  }

  lemma ScanLineLocates(lines: seq<string>, k: nat, st: Scanned)
    requires k < |lines| && IsPlain(lines[k]) && Located(INI, lines, k, st)
    ensures Located(INI, lines, k + 1, ScanLine(st, lines[k], k))
  {
    var g := INI;
    var st' := ScanLine(st, lines[k], k);
    NextKeyLocated(g, lines, k, st.layout.keys, st'.layout.keys);
    NextCommentIn(g, lines, k);
    assert EndsLocated(g, lines, k + 1, st'.layout.ends);
  }

  lemma ReadsOneId(g: Grammar, section: string, raw: string)
    ensures IdsOf(ReadLine(g, section, raw)) == if g.kind(raw).Entry? then {Id(section, g.kind(raw).key)} else {}
  {
    if g.kind(raw).Entry? {
      assert ReadLine(g, section, raw)[0].id == Id(section, g.kind(raw).key);
    }
  }

  lemma {:induction false} ScanLocates(lines: seq<string>, k: nat)
    requires k <= |lines| && ArePlain(INI, lines)
    ensures Located(INI, lines, k, ScanTo(lines, k))
  {
    if k > 0 {
      ScanLocates(lines, k - 1);
      ScanLineLocates(lines, k - 1, ScanTo(lines, k - 1));
    }
  }

  // ---- The template ------------------------------------------------------

  datatype TemplateEntry = TemplateEntry(identity: Id, marker: string, comments: seq<string>, assignment: string)

  /** An entry documents itself and reads back as the assignment it stands for. */
  ghost predicate ValidEntry(g: Grammar, e: TemplateEntry) {
    && e.comments != [] && OneLiners(e.comments) && '\n' !in e.assignment && '\n' !in e.identity.section
    && (forall i :: 0 <= i < |e.comments| ==> g.kind(e.comments[i]) == Comment(e.comments[i]))
    && e.marker in e.comments
    && g.kind(e.assignment).Entry? && g.kind(e.assignment).key == e.identity.key && g.plain(e.assignment)
    && g.kind("[" + e.identity.section + "]") == Header(e.identity.section)
  }

  ghost predicate ValidTemplate(g: Grammar, template: seq<TemplateEntry>) {
    && (forall t :: 0 <= t < |template| ==> ValidEntry(g, template[t]))
    && (forall t, u :: 0 <= t < u < |template| ==> template[t].identity != template[u].identity)
  }

  // ---- What to insert where ----------------------------------------------

  datatype Document = Document(lines: seq<string>, ids: set<Id>, layout: Layout)

  function DocumentOf(lines: seq<string>): Document {
    Document(lines, IdsOf(Read(INI, "", lines)), LayoutOf(lines))
  }

  predicate Exists(d: Document, e: TemplateEntry) { e.identity in d.ids }

  predicate Documented(d: Document, e: TemplateEntry) { e.marker in d.layout.comments }

  predicate Known(d: Document, e: TemplateEntry) { e.identity.section in d.layout.ends }

  predicate Needs(d: Document, e: TemplateEntry) { !Exists(d, e) || !Documented(d, e) }

  function Slot(d: Document, e: TemplateEntry): nat {
    if e.identity in d.layout.keys then d.layout.keys[e.identity]
    else if Known(d, e) then d.layout.ends[e.identity.section]
    else |d.lines|
  }

  /** The comment lines, which are one blank line if there are none. */
  function CommentLines(e: TemplateEntry): seq<string> {
    if e.comments == [] then [""] else e.comments
  }

  function Additions(d: Document, e: TemplateEntry): seq<string> {
    (if Documented(d, e) then [] else CommentLines(e)) + (if Exists(d, e) then [] else [e.assignment, ""])
  }

  predicate GoesInto(d: Document, e: TemplateEntry, i: nat) {
    Needs(d, e) && Known(d, e) && Slot(d, e) == i
  }

  predicate GoesUnder(d: Document, e: TemplateEntry, section: string) {
    Needs(d, e) && !Known(d, e) && e.identity.section == section
  }

  /** The lines the first `k` entries put before line `i`. */
  function Inserted(d: Document, template: seq<TemplateEntry>, k: nat, i: nat): seq<string>
    requires k <= |template|
  {
    if k == 0 then []
    else Inserted(d, template, k - 1, i) + if GoesInto(d, template[k - 1], i) then Additions(d, template[k - 1]) else []
  }

  function SectionStart(section: string): seq<string> {
    ["", "[" + section + "]", ""]
  }

  /** The new section made of the entries, among the first `k`, whose section the text lacks. */
  function NewSection(d: Document, template: seq<TemplateEntry>, k: nat, section: string): seq<string>
    requires k <= |template|
  {
    if k == 0 then SectionStart(section)
    else NewSection(d, template, k - 1, section)
         + if GoesUnder(d, template[k - 1], section) then Additions(d, template[k - 1]) else []
  }

  /** The new sections, in the order the template names them. */
  function NewNames(d: Document, template: seq<TemplateEntry>, k: nat): seq<string>
    requires k <= |template|
  {
    if k == 0 then []
    else
      var names := NewNames(d, template, k - 1);
      var e := template[k - 1];
      if Needs(d, e) && !Known(d, e) && e.identity.section !in names then names + [e.identity.section] else names
  }

  function NewSections(d: Document, template: seq<TemplateEntry>, names: seq<string>): seq<string> {
    if names == [] then []
    else NewSections(d, template, names[..|names| - 1]) + NewSection(d, template, |template|, names[|names| - 1])
  }

  function SlotLines(d: Document, template: seq<TemplateEntry>, i: nat): seq<string> {
    Inserted(d, template, |template|, i)
    + if i == |d.lines| then NewSections(d, template, NewNames(d, template, |template|)) else []
  }

  function Slots(d: Document, template: seq<TemplateEntry>): (slots: seq<seq<string>>)
    ensures |slots| == |d.lines| + 1 && forall i :: 0 <= i <= |d.lines| ==> slots[i] == SlotLines(d, template, i)
  {
    seq(|d.lines| + 1, i requires 0 <= i => SlotLines(d, template, i))
  }

  // ---- Putting it together -----------------------------------------------

  function Insert(merged: string, added: seq<string>, nl: string): string {
    if added == [] then merged
    else merged + (if Terminated(merged) then "" else nl) + Render(added, nl)
  }

  function With(lines: seq<string>, slots: seq<seq<string>>, nl: string, i: nat): string
    requires i <= |lines| < |slots|
  {
    if i == 0 then Insert("", slots[0], nl)
    else Insert(With(lines, slots, nl, i - 1) + lines[i - 1], slots[i], nl)
  }

  /** The line break of the first line. */
  function NewlineOf(text: string): (nl: string)
    ensures IsNewline(nl)
  {
    var at := Find(text, '\n');
    if 0 < at < |text| && text[at - 1] == '\r' then "\r\n" else "\n"
  }

  predicate NothingToAdd(slots: seq<seq<string>>) {
    forall i :: 0 <= i < |slots| ==> slots[i] == []
  }

  function Merged(text: string, template: seq<TemplateEntry>): string {
    var lines := Lines(text);
    var slots := Slots(DocumentOf(lines), template);
    if NothingToAdd(slots) then text
    else
      var nl := NewlineOf(text);
      var merged := With(lines, slots, nl, |lines|);
      if Terminated(text) then merged else StripTrailing(merged, nl)
  }

  // ---- The lines of the result -------------------------------------------

  /** A line of the text, which gets a line break when something follows it. */
  function KeptLine(l: string, added: seq<string>, nl: string): string {
    if added != [] && !Terminated(l) then l + nl else l
  }

  function Follow(before: seq<string>, l: string, added: seq<string>, nl: string): seq<string> {
    before + [KeptLine(l, added, nl)] + Broken(added, nl)
  }

  function Woven(lines: seq<string>, slots: seq<seq<string>>, nl: string, i: nat): seq<string>
    requires i <= |lines| < |slots|
  {
    if i == 0 then Broken(slots[0], nl)
    else Follow(Woven(lines, slots, nl, i - 1), lines[i - 1], slots[i], nl)
  }

  ghost predicate AreLines(lines: seq<string>) {
    forall i :: 0 <= i < |lines| ==> IsLine(lines[i], i == |lines| - 1)
  }

  ghost predicate AllOneLiners(slots: seq<seq<string>>) {
    forall i :: 0 <= i < |slots| ==> OneLiners(slots[i])
  }

  lemma OneLine(l: string, last: bool)
    requires IsLine(l, last)
    ensures Lines(l) == [l] && (!last ==> Terminated(l))
  {
    if Terminated(l) {
      assert l[..|l| - 1] + "\n" == l;
      LinesOfOne(l[..|l| - 1], "\n");
    } else {
      assert l + "" == l;
      LinesOfOne(l, "");
    }
  }

  lemma InsertedLines(merged: string, added: seq<string>, nl: string)
    requires IsNewline(nl) && OneLiners(added) && Terminated(merged)
    ensures Lines(Insert(merged, added, nl)) == Lines(merged) + Broken(added, nl)
    ensures Terminated(Insert(merged, added, nl))
  {
    if added != [] {
      RenderIsLines(added, nl);
      LinesOfConcat(merged, Render(added, nl));
      assert merged + "" == merged;
    }
  }

  lemma UnfinishedJoins(merged: string, last: string, nl: string, tail: string)
    requires IsNewline(nl) && Terminated(merged) && '\n' !in last
    ensures Lines(merged + last + nl + tail) == Lines(merged) + [last + nl] + Lines(tail)
  {
    var l := last + nl;
    LinesOfOne(last, nl);
    LinesOfConcat(l, tail);
    LinesOfConcat(merged, l + tail);
    Assoc(merged, last, nl);
    Assoc(merged, l, tail);
    Assoc(Lines(merged), [l], Lines(tail));
  }

  lemma TerminatedConcat(a: string, b: string)
    ensures b != "" ==> (Terminated(a + b) <==> Terminated(b))
  {
  }

  lemma NextCompleteLine(merged: string, l: string, last: bool, added: seq<string>, nl: string)
    requires IsNewline(nl) && OneLiners(added) && Terminated(merged) && IsLine(l, last) && Terminated(l)
    ensures Lines(Insert(merged + l, added, nl)) == Lines(merged) + [l] + Broken(added, nl)
    ensures Terminated(Insert(merged + l, added, nl))
  {
    OneLine(l, last);
    LinesOfConcat(merged, l);
    TerminatedConcat(merged, l);
    InsertedLines(merged + l, added, nl);
  }

  lemma NextUnfinishedLine(merged: string, l: string, added: seq<string>, nl: string)
    requires IsNewline(nl) && OneLiners(added) && Terminated(merged) && IsLine(l, true) && !Terminated(l) && added != []
    ensures Lines(Insert(merged + l, added, nl)) == Lines(merged) + [l + nl] + Broken(added, nl)
    ensures Terminated(Insert(merged + l, added, nl))
  {
    TerminatedConcat(merged, l);
    RenderIsLines(added, nl);
    UnfinishedJoins(merged, l, nl, Render(added, nl));
    TerminatedConcat(merged + l + nl, Render(added, nl));
  }

  /** The next line of the text and what is put after it. */
  lemma NextLine(merged: string, l: string, last: bool, added: seq<string>, nl: string)
    requires IsNewline(nl) && OneLiners(added) && Terminated(merged) && IsLine(l, last)
    ensures Lines(Insert(merged + l, added, nl)) == Follow(Lines(merged), l, added, nl)
    ensures added != [] || Terminated(l) ==> Terminated(Insert(merged + l, added, nl))
  {
    if Terminated(l) {
      NextCompleteLine(merged, l, last, added, nl);
    } else if added != [] {
      NextUnfinishedLine(merged, l, added, nl);
    } else {
      OneLine(l, last);
      LinesOfConcat(merged, l);
      assert Broken(added, nl) == [];
    }
  }

  lemma WithNextIsWoven(
      lines: seq<string>, slots: seq<seq<string>>, nl: string, i: nat, merged: string, woven: seq<string>)
    requires 0 < i <= |lines| < |slots| && AreLines(lines) && AllOneLiners(slots) && IsNewline(nl)
    requires Lines(merged) == woven && Terminated(merged)
    ensures Lines(Insert(merged + lines[i - 1], slots[i], nl)) == Follow(woven, lines[i - 1], slots[i], nl)
    ensures i < |lines| || slots[i] != [] ==> Terminated(Insert(merged + lines[i - 1], slots[i], nl))
  {
    NextLine(merged, lines[i - 1], i == |lines|, slots[i], nl);
  }

  lemma {:induction false} WithIsWoven(lines: seq<string>, slots: seq<seq<string>>, nl: string, i: nat)
    requires i <= |lines| < |slots| && AreLines(lines) && AllOneLiners(slots) && IsNewline(nl)
    ensures Lines(With(lines, slots, nl, i)) == Woven(lines, slots, nl, i)
    ensures i < |lines| || slots[i] != [] ==> Terminated(With(lines, slots, nl, i))
  {
    if i == 0 {
      InsertedLines("", slots[0], nl);
    } else {
      WithIsWoven(lines, slots, nl, i - 1);
      WithNextIsWoven(lines, slots, nl, i, With(lines, slots, nl, i - 1), Woven(lines, slots, nl, i - 1));
    }
  }

  // ---- What the inserted lines mean --------------------------------------

  /** What the layout of a plain text is good for. */
  ghost predicate Sound(g: Grammar, d: Document) {
    && KeysLocated(g, d.lines, |d.lines|, d.layout.keys) && EndsLocated(g, d.lines, |d.lines|, d.layout.ends)
    && (forall id <- d.layout.keys :: id.section in d.layout.ends)
    && d.layout.comments == CommentsOf(g, d.lines)
    && d.layout.keys.Keys == d.ids == IdsOf(Read(g, "", d.lines))
  }

  lemma DocumentIsSound(text: string)
    requires ArePlain(INI, Lines(text))
    ensures Sound(INI, DocumentOf(Lines(text))) && AreLines(Lines(text))
  {
    var lines := Lines(text);
    ScanLocates(lines, |lines|);
    forall i | 0 <= i < |lines|
      ensures IsLine(lines[i], i == |lines| - 1)
    {
      LinesAreLines(text, i);
    }
  }

  function ValueOf(g: Grammar, e: TemplateEntry): string {
    if g.kind(e.assignment).Entry? then g.kind(e.assignment).value else ""
  }

  function NewItem(g: Grammar, d: Document, e: TemplateEntry): seq<Item> {
    if Exists(d, e) then [] else [Item(e.identity, ValueOf(g, e))]
  }

  lemma {:induction false} CommentsReadNothing(g: Grammar, section: string, lines: seq<string>, k: nat)
    requires k <= |lines| && forall i :: 0 <= i < |lines| ==> g.kind(lines[i]).Comment? || g.kind(lines[i]).Blank?
    ensures ReadTo(g, section, lines, k) == [] && SectionTo(g, section, lines, k) == section
  {
    if k > 0 {
      CommentsReadNothing(g, section, lines, k - 1);
    }
  }

  /** In its own section, what an entry adds reads as its assignment, or as nothing. */
  lemma AdditionsRead(g: Grammar, d: Document, e: TemplateEntry)
    requires IgnoresBreaks(g) && ValidEntry(g, e)
    ensures SectionAfter(g, e.identity.section, Additions(d, e)) == e.identity.section
    ensures Read(g, e.identity.section, Additions(d, e)) == NewItem(g, d, e)
  {
    var section := e.identity.section;
    var comments := if Documented(d, e) then [] else CommentLines(e);
    var rest := if Exists(d, e) then [] else [e.assignment, ""];
    CommentsReadNothing(g, section, comments, |comments|);
    ReadAppends(g, section, comments, rest);
    if !Exists(d, e) {
      assert rest == [e.assignment] + [""];
      ReadAppends(g, section, [e.assignment], [""]);
      ReadOne(g, section, e.assignment);
      ReadOne(g, section, "");
    }
  }

  function InsertedItems(g: Grammar, d: Document, template: seq<TemplateEntry>, k: nat, i: nat): seq<Item>
    requires k <= |template|
  {
    if k == 0 then []
    else InsertedItems(g, d, template, k - 1, i) + if GoesInto(d, template[k - 1], i) then NewItem(g, d, template[k - 1]) else []
  }

  /** The insertions before line `i` read as the new entries that go there. */
  lemma {:induction false} InsertedRead(g: Grammar, d: Document, template: seq<TemplateEntry>, k: nat, i: nat)
    requires IgnoresBreaks(g) && Sound(g, d) && ValidTemplate(g, template) && k <= |template| && i <= |d.lines|
    ensures SectionAfter(g, SectionAt(g, d.lines, i), Inserted(d, template, k, i)) == SectionAt(g, d.lines, i)
    ensures Read(g, SectionAt(g, d.lines, i), Inserted(d, template, k, i)) == InsertedItems(g, d, template, k, i)
  {
    if k > 0 {
      InsertedRead(g, d, template, k - 1, i);
      var e := template[k - 1];
      if GoesInto(d, e, i) {
        assert SectionAt(g, d.lines, i) == e.identity.section;
        AdditionsRead(g, d, e);
        ReadAppends(g, SectionAt(g, d.lines, i), Inserted(d, template, k - 1, i), Additions(d, e));
      } else {
        assert Inserted(d, template, k, i) == Inserted(d, template, k - 1, i);
      }
    }
  }

  function NewSectionItems(g: Grammar, d: Document, template: seq<TemplateEntry>, k: nat, section: string): seq<Item>
    requires k <= |template|
  {
    if k == 0 then []
    else NewSectionItems(g, d, template, k - 1, section)
         + if GoesUnder(d, template[k - 1], section) then NewItem(g, d, template[k - 1]) else []
  }

  lemma SectionStartReads(g: Grammar, before: string, section: string)
    requires IgnoresBreaks(g) && g.kind("[" + section + "]") == Header(section)
    ensures SectionAfter(g, before, SectionStart(section)) == section && Read(g, before, SectionStart(section)) == []
  {
    var header := "[" + section + "]";
    assert SectionStart(section) == [""] + [header] + [""];
    ReadAppends(g, before, [""], [header]);
    ReadAppends(g, before, [""] + [header], [""]);
    ReadOne(g, before, "");
    ReadOne(g, before, header);
    ReadOne(g, section, "");
  }

  lemma {:induction false} NewSectionReads(g: Grammar, 
      d: Document, template: seq<TemplateEntry>, k: nat, before: string, section: string)
    requires IgnoresBreaks(g) && ValidTemplate(g, template) && k <= |template| && g.kind("[" + section + "]") == Header(section)
    ensures SectionAfter(g, before, NewSection(d, template, k, section)) == section
    ensures Read(g, before, NewSection(d, template, k, section)) == NewSectionItems(g, d, template, k, section)
  {
    if k == 0 {
      SectionStartReads(g, before, section);
    } else {
      NewSectionReads(g, d, template, k - 1, before, section);
      if GoesUnder(d, template[k - 1], section) {
        AdditionsRead(g, d, template[k - 1]);
        ReadAppends(g, before, NewSection(d, template, k - 1, section), Additions(d, template[k - 1]));
      } else {
        assert NewSection(d, template, k, section) == NewSection(d, template, k - 1, section);
      }
    }
  }

  function NewSectionsItems(g: Grammar, d: Document, template: seq<TemplateEntry>, names: seq<string>): seq<Item> {
    if names == [] then []
    else NewSectionsItems(g, d, template, names[..|names| - 1])
         + NewSectionItems(g, d, template, |template|, names[|names| - 1])
  }

  lemma {:induction false} NewSectionsRead(g: Grammar, d: Document, template: seq<TemplateEntry>, before: string, names: seq<string>)
    requires IgnoresBreaks(g) && ValidTemplate(g, template)
    requires forall name <- names :: g.kind("[" + name + "]") == Header(name)
    ensures Read(g, before, NewSections(d, template, names)) == NewSectionsItems(g, d, template, names)
    decreases |names|
  {
    if names != [] {
      var init, last := names[..|names| - 1], names[|names| - 1];
      NewSectionsRead(g, d, template, before, init);
      var section := SectionAfter(g, before, NewSections(d, template, init));
      ReadAppends(g, before, NewSections(d, template, init), NewSection(d, template, |template|, last));
      NewSectionReads(g, d, template, |template|, section, last);
    }
  }

  /** The names of the new sections are distinct, and are those of the entries that need one. */
  lemma {:induction false} NewNamesAre(d: Document, template: seq<TemplateEntry>, k: nat)
    requires k <= |template|
    ensures forall i, j :: 0 <= i < j < |NewNames(d, template, k)| ==>
              NewNames(d, template, k)[i] != NewNames(d, template, k)[j]
    ensures forall s :: s in NewNames(d, template, k) ==> exists t :: 0 <= t < k && GoesUnder(d, template[t], s)
    ensures forall t :: 0 <= t < k && Needs(d, template[t]) && !Known(d, template[t]) ==>
              template[t].identity.section in NewNames(d, template, k)
  {
    if k > 0 {
      NewNamesAre(d, template, k - 1);
      var names := NewNames(d, template, k);
      if names != NewNames(d, template, k - 1) {
        assert GoesUnder(d, template[k - 1], names[|names| - 1]);
      }
    }
  }

  lemma NewNamesAreHeaders(g: Grammar, d: Document, template: seq<TemplateEntry>)
    requires ValidTemplate(g, template)
    ensures forall name <- NewNames(d, template, |template|) :: g.kind("[" + name + "]") == Header(name)
  {
    NewNamesAre(d, template, |template|);
    forall name | name in NewNames(d, template, |template|)
      ensures g.kind("[" + name + "]") == Header(name)
    {
      var t :| 0 <= t < |template| && GoesUnder(d, template[t], name);
      assert ValidEntry(g, template[t]);
    }
  }

  /** What the lines put before line `i` read as. */
  function SlotItems(g: Grammar, d: Document, template: seq<TemplateEntry>, i: nat): seq<Item> {
    InsertedItems(g, d, template, |template|, i)
    + if i == |d.lines| then NewSectionsItems(g, d, template, NewNames(d, template, |template|)) else []
  }

  lemma SlotReads(g: Grammar, d: Document, template: seq<TemplateEntry>, i: nat)
    requires IgnoresBreaks(g) && Sound(g, d) && ValidTemplate(g, template) && i <= |d.lines|
    ensures Read(g, SectionAt(g, d.lines, i), SlotLines(d, template, i)) == SlotItems(g, d, template, i)
    ensures i < |d.lines| ==> SectionAfter(g, SectionAt(g, d.lines, i), SlotLines(d, template, i)) == SectionAt(g, d.lines, i)
  {
    var k, section := |template|, SectionAt(g, d.lines, i);
    InsertedRead(g, d, template, k, i);
    if i == |d.lines| {
      var names := NewNames(d, template, k);
      NewNamesAreHeaders(g, d, template);
      NewSectionsRead(g, d, template, section, names);
      ReadAppends(g, section, Inserted(d, template, k, i), NewSections(d, template, names));
    } else {
      assert SlotLines(d, template, i) == Inserted(d, template, k, i);
    }
  }
}
