/**
 `scan_layout` and `merge_missing` as the code runs them (src/config/document.rs), with their
 maps, strings and loops, shown to compute the functions of `Merging.dfy`.
 */
module ConfigDocument {
  import opened Wrappers
  import opened Text
  import opened IniGrammar
  import opened Merging
  import opened MergeResult

  method ScanLayout(text: string) returns (layout: Layout)
    ensures layout == LayoutOf(Lines(text))
  {
    var lines := Lines(text);
    var keys: map<Id, nat>, ends: map<string, nat>, comments: set<string> := map[], map[], {};
    var section, quote, continuation, offset := "", None, false, 0;
    while offset < |lines|
      invariant offset <= |lines|
      invariant ScanTo(lines, offset) == Scanned(section, quote, continuation, Layout(keys, ends, comments))
    {
      var raw := lines[offset];
      assert ScanTo(lines, offset + 1) == ScanLine(ScanTo(lines, offset), raw, offset);
      if quote.Some? {
        quote := UnfinishedQuote(Trim(raw), quote);
      } else if continuation {
        continuation := Continues(raw);
      } else {
        match KindOf(raw) {
          case Comment(line) =>
            comments := comments + {line};
          case Header(name) =>
            if section !in ends {
              ends := ends[section := offset];
            }
            section := name;
          case Entry(key, value) =>
            if Id(section, key) !in keys {
              keys := keys[Id(section, key) := offset];
            }
            quote := UnfinishedQuote(value, None);
            continuation := quote.None? && Continues(raw);
          case Blank =>
        }
      }
      offset := offset + 1;
    }
    if section !in ends {
      ends := ends[section := |lines|];
    }
    layout := Layout(keys, ends, comments);
  }

  // ---- Additions ---------------------------------------------------------

  function Joined(lines: seq<string>): string {
    if lines == [] then "" else if |lines| == 1 then lines[0] else lines[0] + "\n" + Joined(lines[1..])
  }

  lemma {:induction false} JoinedRenders(lines: seq<string>)
    requires lines != []
    ensures Joined(lines) + "\n" == Render(lines, "\n")
  {
    if |lines| > 1 {
      JoinedRenders(lines[1..]);
      Assoc(lines[0] + "\n", Joined(lines[1..]), "\n");
    }
  }

  /** What is pushed for one entry. */
  method PushEntry(addition: string, e: TemplateEntry, documented: bool, exists_: bool) returns (pushed: string)
    ensures pushed == addition + Render((if documented then [] else CommentLines(e))
                                        + (if exists_ then [] else [e.assignment, ""]), "\n")
  {
    pushed := addition;
    var comments := if documented then [] else CommentLines(e);
    var assignment := if exists_ then [] else [e.assignment, ""];
    if !documented {
      pushed := pushed + Joined(e.comments) + "\n";
      CommentsRender(e);
    }
    if !exists_ {
      pushed := pushed + e.assignment + "\n\n";
      AssignmentRenders(e.assignment);
    }
    RenderAppends(comments, assignment, "\n");
  }

  lemma CommentsRender(e: TemplateEntry)
    ensures Joined(e.comments) + "\n" == Render(CommentLines(e), "\n")
  {
    if e.comments != [] {
      JoinedRenders(e.comments);
    }
  }

  lemma AssignmentRenders(assignment: string)
    ensures Render([assignment, ""], "\n") == assignment + "\n\n"
  {
    assert [assignment, ""][1..] == [""];
    assert [""][1..] == [];
    assert Render([""], "\n") == "" + "\n" + "" == "\n";
    assert "\n" + "\n" == "\n\n";
    Assoc(assignment, "\n", "\n");
  }

  /** The additions by offset, and those of the new sections, in the order they were begun. */
  datatype Collection = Collection(insertions: map<nat, string>, names: seq<string>, sections: map<string, string>)

  /** They are those of the first `k` entries. */
  ghost predicate Collected(d: Document, template: seq<TemplateEntry>, k: nat, c: Collection)
    requires k <= |template|
  {
    && (forall i :: i in c.insertions <==> Inserted(d, template, k, i) != [])
    && (forall i <- c.insertions :: c.insertions[i] == Render(Inserted(d, template, k, i), "\n"))
    && c.names == NewNames(d, template, k)
    && (forall s :: s in c.sections <==> s in c.names)
    && (forall s <- c.sections :: c.sections[s] == Render(NewSection(d, template, k, s), "\n"))
  }

  lemma {:induction false} NotYetNamed(d: Document, template: seq<TemplateEntry>, k: nat, s: string)
    requires k <= |template| && s !in NewNames(d, template, k)
    ensures NewSection(d, template, k, s) == SectionStart(s)
  {
    if k > 0 {
      NotYetNamed(d, template, k - 1, s);
    }
  }

  lemma StartRenders(s: string)
    ensures Render(SectionStart(s), "\n") == "\n[" + s + "]\n\n"
  {
    var header := "[" + s + "]";
    var start := SectionStart(s);
    assert start[1..] == [header, ""];
    AssignmentRenders(header);
    assert Render(start, "\n") == "" + "\n" + (header + "\n\n");
    assert "" + "\n" + (header + "\n\n") == "\n[" + s + "]\n\n";
  }

  /** What one entry adds to the collection. */
  function CollectOne(d: Document, e: TemplateEntry, c: Collection): Collection {
    if Exists(d, e) && Documented(d, e) then c
    else if Known(d, e) then
      var offset := Slot(d, e);
      c.(insertions := c.insertions[offset := (if offset in c.insertions then c.insertions[offset] else "")
                                              + Render(Additions(d, e), "\n")])
    else
      var section := e.identity.section;
      c.(names := if section in c.names then c.names else c.names + [section],
         sections := c.sections[section := (if section in c.sections then c.sections[section]
                                            else "\n[" + section + "]\n\n") + Render(Additions(d, e), "\n")])
  }

  function CollectTo(d: Document, template: seq<TemplateEntry>, k: nat): Collection
    requires k <= |template|
  {
    if k == 0 then Collection(map[], [], map[]) else CollectOne(d, template[k - 1], CollectTo(d, template, k - 1))
  }

  lemma CollectedInsertion(d: Document, e: TemplateEntry, c: Collection, i: nat)
    ensures var insertions := CollectOne(d, e, c).insertions;
      if GoesInto(d, e, i) then
        Additions(d, e) != [] && i in insertions
        && insertions[i] == (if i in c.insertions then c.insertions[i] else "") + Render(Additions(d, e), "\n")
      else (i in insertions <==> i in c.insertions) && (i in insertions ==> insertions[i] == c.insertions[i])
  {
  }

  lemma {:induction false} InsertionIs(d: Document, template: seq<TemplateEntry>, k: nat, i: nat)
    requires k <= |template|
    ensures var insertions, added := CollectTo(d, template, k).insertions, Inserted(d, template, k, i);
      (i in insertions <==> added != []) && (i in insertions ==> insertions[i] == Render(added, "\n"))
  {
    if k > 0 {
      InsertionIs(d, template, k - 1, i);
      var e := template[k - 1];
      CollectedInsertion(d, e, CollectTo(d, template, k - 1), i);
      if GoesInto(d, e, i) {
        RenderAppends(Inserted(d, template, k - 1, i), Additions(d, e), "\n");
      } else {
        assert Inserted(d, template, k, i) == Inserted(d, template, k - 1, i);
      }
    }
  }

  lemma {:induction false} SectionIs(d: Document, template: seq<TemplateEntry>, k: nat, s: string)
    requires k <= |template|
    ensures var c := CollectTo(d, template, k);
      && c.names == NewNames(d, template, k) && (s in c.sections <==> s in c.names)
      && (s in c.sections ==> c.sections[s] == Render(NewSection(d, template, k, s), "\n"))
  {
    if k > 0 {
      SectionIs(d, template, k - 1, s);
      var e := template[k - 1];
      if GoesUnder(d, e, s) {
        RenderAppends(NewSection(d, template, k - 1, s), Additions(d, e), "\n");
        if s !in NewNames(d, template, k - 1) {
          NotYetNamed(d, template, k - 1, s);
          StartRenders(s);
        }
      } else {
        assert NewSection(d, template, k, s) == NewSection(d, template, k - 1, s);
      }
    }
  }

  lemma CollectsAll(d: Document, template: seq<TemplateEntry>)
    ensures Collected(d, template, |template|, CollectTo(d, template, |template|))
  {
    var n := |template|;
    var c := CollectTo(d, template, n);
    forall i: nat
      ensures i in c.insertions <==> Inserted(d, template, n, i) != []
      ensures i in c.insertions ==> c.insertions[i] == Render(Inserted(d, template, n, i), "\n")
    {
      InsertionIs(d, template, n, i);
    }
    SectionIs(d, template, n, "");
    forall s
      ensures s in c.sections <==> s in c.names
      ensures s in c.sections ==> c.sections[s] == Render(NewSection(d, template, n, s), "\n")
    {
      SectionIs(d, template, n, s);
    }
  }

  /** The first loop: what goes where. */
  method Collect(d: Document, template: seq<TemplateEntry>) returns (c: Collection)
    ensures c == CollectTo(d, template, |template|)
  {
    c := Collection(map[], [], map[]);
    var k := 0;
    while k < |template|
      invariant k <= |template| && c == CollectTo(d, template, k)
    {
      var e := template[k];
      var present, documented := Exists(d, e), Documented(d, e);
      if !(present && documented) {
        if Known(d, e) {
          var offset := Slot(d, e);
          var pushed := PushEntry(if offset in c.insertions then c.insertions[offset] else "", e, documented, present);
          c := c.(insertions := c.insertions[offset := pushed]);
        } else {
          var section := e.identity.section;
          var pushed := PushEntry(if section in c.sections then c.sections[section] else "\n[" + section + "]\n\n",
                                  e, documented, present);
          c := c.(names := if section in c.names then c.names else c.names + [section],
                  sections := c.sections[section := pushed]);
        }
      }
      k := k + 1;
    }
  }

  /** The insertions by offset are the slots that are not empty. */
  ghost predicate AreSlots(insertions: map<nat, string>, slots: seq<seq<string>>) {
    && (forall i: nat :: i < |slots| ==> (i in insertions <==> slots[i] != []))
    && (forall i: nat :: i < |slots| && i in insertions ==> insertions[i] == Render(slots[i], "\n"))
  }

  /** The second loop: the new sections go at the end of the text. */
  method AppendSections(n: nat, ghost d: Document, ghost template: seq<TemplateEntry>, c: Collection)
    returns (insertions: map<nat, string>)
    requires n == |d.lines| && Collected(d, template, |template|, c)
    ensures AreSlots(insertions, Slots(d, template))
  {
    ghost var base := Inserted(d, template, |template|, n);
    StartOfEnd(d, template, base, c.names);
    var end := if n in c.insertions then c.insertions[n] else "";
    var j := 0;
    while j < |c.names|
      invariant j <= |c.names| && end == EndText(d, template, base, c.names, j)
    {
      NextSection(d, template, base, c.names, j);
      NamedSection(d, template, c, j);
      end := end + c.sections[c.names[j]];
      j := j + 1;
    }
    insertions := if c.names == [] then c.insertions else c.insertions[n := end];
    SectionsAreSlots(d, template, c, insertions);
  }

  lemma NamedSection(d: Document, template: seq<TemplateEntry>, c: Collection, j: nat)
    requires Collected(d, template, |template|, c) && j < |c.names|
    ensures c.names[j] in c.sections
    ensures c.sections[c.names[j]] == Render(NewSection(d, template, |template|, c.names[j]), "\n")
  {
  }

  /** The insertion at the end of the text, with the first `j` new sections. */
  ghost function EndText(d: Document, template: seq<TemplateEntry>, base: seq<string>, names: seq<string>, j: nat): string
    requires j <= |names|
  {
    Render(base + NewSections(d, template, names[..j]), "\n")
  }

  lemma StartOfEnd(d: Document, template: seq<TemplateEntry>, base: seq<string>, names: seq<string>)
    ensures EndText(d, template, base, names, 0) == Render(base, "\n")
  {
    assert base + NewSections(d, template, names[..0]) == base;
  }

  lemma NextSection(d: Document, template: seq<TemplateEntry>, base: seq<string>, names: seq<string>, j: nat)
    requires j < |names|
    ensures EndText(d, template, base, names, j + 1)
         == EndText(d, template, base, names, j) + Render(NewSection(d, template, |template|, names[j]), "\n")
  {
    var so, section := NewSections(d, template, names[..j]), NewSection(d, template, |template|, names[j]);
    assert names[..j + 1][..j] == names[..j];
    RenderAppends(base + so, section, "\n");
    Assoc(base, so, section);
  }

  lemma SectionsAreSlots(d: Document, template: seq<TemplateEntry>, c: Collection, insertions: map<nat, string>)
    requires Collected(d, template, |template|, c)
    requires var base := Inserted(d, template, |template|, |d.lines|);
      insertions == if c.names == [] then c.insertions
                    else c.insertions[|d.lines| := EndText(d, template, base, c.names, |c.names|)]
    ensures AreSlots(insertions, Slots(d, template))
  {
    forall i: nat | i <= |d.lines|
      ensures i in insertions <==> SlotLines(d, template, i) != []
      ensures i in insertions ==> insertions[i] == Render(SlotLines(d, template, i), "\n")
    {
      if i == |d.lines| && c.names != [] {
        EndSlot(d, template);
      } else {
        NoSectionsHere(d, template, i);
      }
    }
  }

  lemma EndSlot(d: Document, template: seq<TemplateEntry>)
    requires NewNames(d, template, |template|) != []
    ensures var base, names := Inserted(d, template, |template|, |d.lines|), NewNames(d, template, |template|);
      && SlotLines(d, template, |d.lines|) != []
      && EndText(d, template, base, names, |names|) == Render(SlotLines(d, template, |d.lines|), "\n")
  {
    var names := NewNames(d, template, |template|);
    assert names[..|names|] == names;
    SectionHasLines(d, template, |template|, names[|names| - 1]);
  }

  lemma NoSectionsHere(d: Document, template: seq<TemplateEntry>, i: nat)
    requires i != |d.lines| || NewNames(d, template, |template|) == []
    ensures SlotLines(d, template, i) == Inserted(d, template, |template|, i)
  {
  }

  lemma {:induction false} SectionHasLines(d: Document, template: seq<TemplateEntry>, k: nat, s: string)
    requires k <= |template|
    ensures NewSection(d, template, k, s) != []
  {
    if k > 0 {
      SectionHasLines(d, template, k - 1, s);
    }
  }

  /** What is put together before insertion `i`. */
  function Before(lines: seq<string>, slots: seq<seq<string>>, nl: string, i: nat): string
    requires i <= |lines| < |slots|
  {
    if i == 0 then "" else With(lines, slots, nl, i - 1) + lines[i - 1]
  }

  method PushAddition(merged: string, addition: string, newline: string, ghost added: seq<string>) returns (pushed: string)
    requires IsNewline(newline) && OneLiners(added) && added != [] && addition == Render(added, "\n")
    ensures pushed == Insert(merged, added, newline)
  {
    pushed := merged;
    if pushed != "" && pushed[|pushed| - 1] != '\n' {
      pushed := pushed + newline;
    }
    ReplaceRenders(added, newline);
    pushed := pushed + Replace(addition, newline);
    assert merged + "" == merged;
  }

  lemma OneMore(merged: string, lines: seq<string>, previous: nat, offset: nat)
    requires previous <= offset < |lines|
    ensures merged + Concat(lines[previous..offset + 1]) == merged + Concat(lines[previous..offset]) + lines[offset]
  {
    assert lines[previous..offset + 1] == lines[previous..offset] + [lines[offset]];
    ConcatAppends(lines[previous..offset], [lines[offset]]);
    assert [lines[offset]][1..] == [];
    assert Concat([lines[offset]]) == lines[offset];
    Assoc(merged, Concat(lines[previous..offset]), lines[offset]);
  }

  /** What is inserted before line `offset`, after the lines not yet put. */
  method PutAt(merged: string, lines: seq<string>, ghost slots: seq<seq<string>>, insertions: map<nat, string>,
               newline: string, previous: nat, offset: nat) returns (merged': string, previous': nat)
    requires previous <= offset <= |lines| && |slots| == |lines| + 1 && AllOneLiners(slots) && IsNewline(newline)
    requires AreSlots(insertions, slots)
    requires merged + Concat(lines[previous..offset]) == Before(lines, slots, newline, offset)
    ensures previous' <= offset
    ensures merged' + Concat(lines[previous'..offset]) == With(lines, slots, newline, offset)
  {
    merged', previous' := merged, previous;
    if offset in insertions {
      merged' := merged' + Concat(lines[previous..offset]);
      merged' := PushAddition(merged', insertions[offset], newline, slots[offset]);
      previous' := offset;
      assert Concat(lines[previous'..offset]) == "";
      assert merged' + "" == merged';
    }
  }

  /** The third loop: the text with its insertions. */
  method PutTogether(lines: seq<string>, ghost slots: seq<seq<string>>, insertions: map<nat, string>, newline: string)
    returns (merged: string)
    requires |slots| == |lines| + 1 && AllOneLiners(slots) && IsNewline(newline) && AreSlots(insertions, slots)
    ensures merged == With(lines, slots, newline, |lines|)
  {
    merged := "";
    var previous: nat, offset: nat := 0, 0;
    assert Concat(lines[0..0]) == "";
    merged, previous := PutAt(merged, lines, slots, insertions, newline, previous, offset);
    while offset < |lines|
      invariant previous <= offset <= |lines|
      invariant merged + Concat(lines[previous..offset]) == With(lines, slots, newline, offset)
    {
      OneMore(merged, lines, previous, offset);
      offset := offset + 1;
      merged, previous := PutAt(merged, lines, slots, insertions, newline, previous, offset);
    }
    merged := merged + Concat(lines[previous..]);
    assert lines[previous..offset] == lines[previous..];
  }

  /** The last loop: a text without a final line break does not get one. */
  method Truncate(text: string, newline: string) returns (merged: string)
    requires newline != ""
    ensures merged == StripTrailing(text, newline)
  {
    merged := text;
    while EndsWith(merged, newline)
      invariant StripTrailing(merged, newline) == StripTrailing(text, newline)
      decreases |merged|
    {
      merged := merged[..|merged| - |newline|];
    }
  }

  datatype MergeError = CannotPlace(id: Id) | WouldChange(id: Id)

  /** The final guards pass: every key of the template is there, and no value list has changed. */
  predicate GuardsPass(text: string, merged: string, template: seq<TemplateEntry>) {
    && (forall t :: 0 <= t < |template| ==> template[t].identity in IdsIn(merged))
    && (forall id <- IdsIn(text) :: ValuesIn(merged, id) == ValuesIn(text, id))
  }

  method FindMissing(ids: set<Id>, template: seq<TemplateEntry>) returns (r: Option<Id>)
    ensures r.None? <==> forall t :: 0 <= t < |template| ==> template[t].identity in ids
  {
    var t := 0;
    while t < |template|
      invariant t <= |template| && forall u :: 0 <= u < t ==> template[u].identity in ids
    {
      if template[t].identity !in ids {
        return Some(template[t].identity);
      }
      t := t + 1;
    }
    r := None;
  }

  method FindChanged(text: string, merged: string) returns (r: Option<Id>)
    ensures r.None? <==> forall id <- IdsIn(text) :: ValuesIn(merged, id) == ValuesIn(text, id)
  {
    var ids := IdsIn(text);
    var left := ids;
    while left != {}
      invariant left <= ids
      invariant forall id <- ids - left :: ValuesIn(merged, id) == ValuesIn(text, id)
      decreases |left|
    {
      var id :| id in left;
      if ValuesIn(merged, id) != ValuesIn(text, id) {
        return Some(id);
      }
      left := left - {id};
    }
    r := None;
  }

  method CheckGuards(text: string, merged: string, template: seq<TemplateEntry>) returns (r: Result<string, MergeError>)
    ensures r.Ok? <==> GuardsPass(text, merged, template)
    ensures r.Ok? ==> r.value == merged
  {
    var missing := FindMissing(IdsIn(merged), template);
    if missing.Some? {
      return Err(CannotPlace(missing.value));
    }
    var changed := FindChanged(text, merged);
    r := if changed.Some? then Err(WouldChange(changed.value)) else Ok(merged);
  }

  /** `merge_missing`, for a template read line by line. Its guards cannot fire on single-line values. */
  method MergeMissing(text: string, template: seq<TemplateEntry>) returns (r: Result<string, MergeError>)
    requires AllOfTemplate(l => '\n' !in l, template)
    ensures r.Ok? ==> r.value == Merged(text, template)
    ensures r.Ok? <==> NothingToAdd(Slots(DocumentOf(Lines(text)), template))
                       || GuardsPass(text, Merged(text, template), template)
    ensures SingleLine(text) && ValidTemplate(INI, template) ==> r == Ok(Merged(text, template))
  {
    var lines := Lines(text);
    var layout := ScanLayout(text);
    var d := Document(lines, IdsIn(text), layout);
    assert d == DocumentOf(lines);
    var collected := Collect(d, template);
    CollectsAll(d, template);
    var insertions := AppendSections(|lines|, d, template, collected);
    var merged := MergeInsertions(text, lines, insertions, d, template);
    if merged.None? {
      return Ok(text);
    }
    GuardsNeverFire(text, template);
    r := CheckGuards(text, merged.value, template);
  }

  method MergeInsertions(text: string, lines: seq<string>, insertions: map<nat, string>,
                         ghost d: Document, ghost template: seq<TemplateEntry>) returns (merged: Option<string>)
    requires lines == Lines(text) && d == DocumentOf(lines) && AreSlots(insertions, Slots(d, template))
    requires AllOfTemplate(l => '\n' !in l, template)
    ensures merged.None? <==> NothingToAdd(Slots(d, template))
    ensures Merged(text, template) == if merged.None? then text else merged.value
  {
    if !exists i: nat :: i <= |lines| && i in insertions {
      return None;
    }
    OneLinerSlots(d, template);
    var newline := NewlineOf(text);
    var all := PutTogether(lines, Slots(d, template), insertions, newline);
    if text != "" && text[|text| - 1] != '\n' {
      all := Truncate(all, newline);
    }
    merged := Some(all);
  }

  lemma OneLinerSlots(d: Document, template: seq<TemplateEntry>)
    requires AllOfTemplate(l => '\n' !in l, template)
    ensures AllOneLiners(Slots(d, template))
  {
    forall j | 0 <= j <= |d.lines|
      ensures OneLiners(Slots(d, template)[j])
    {
      SlotAll(l => '\n' !in l, d, template, j);
    }
  }

  /** The code's own guards never fire on a text whose values are on single lines. */
  lemma GuardsNeverFire(text: string, template: seq<TemplateEntry>)
    ensures SingleLine(text) && ValidTemplate(INI, template) ==> GuardsPass(text, Merged(text, template), template)
  {
    if SingleLine(text) && ValidTemplate(INI, template) {
      forall t | 0 <= t < |template|
        ensures template[t].identity in IdsIn(Merged(text, template))
      {
        MergeHasEveryKey(text, template, t);
      }
      forall id <- IdsIn(text)
        ensures ValuesIn(Merged(text, template), id) == ValuesIn(text, id)
      {
        MergeKeepsValues(text, template, id);
      }
    }
  }
}
