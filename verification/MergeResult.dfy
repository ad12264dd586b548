/**
 The laws of `merge_missing` (src/config/document.rs) for every text whose values are on single
 lines: what the user had is kept, what the template lacks is added, and a second merge
 changes nothing, so none of the code's own guards can fire.
 */
module MergeResult {
  import opened Text
  import opened IniGrammar
  import opened Merging
  import opened MergeMeaning

  // ---- The inserted lines are lines of the template ----------------------

  ghost predicate All(p: string -> bool, lines: seq<string>) {
    forall i :: 0 <= i < |lines| ==> p(lines[i])
  }

  /** `p` holds of every line the template can add. */
  ghost predicate AllOfTemplate(p: string -> bool, template: seq<TemplateEntry>) {
    && p("")
    && (forall t :: 0 <= t < |template| ==>
          All(p, template[t].comments) && p(template[t].assignment) && p("[" + template[t].identity.section + "]"))
  }

  lemma {:induction false} InsertedAll(p: string -> bool, d: Document, template: seq<TemplateEntry>, k: nat, i: nat)
    requires AllOfTemplate(p, template) && k <= |template|
    ensures All(p, Inserted(d, template, k, i))
  {
    if k > 0 {
      InsertedAll(p, d, template, k - 1, i);
      AdditionsAll(p, d, template, k - 1);
    }
  }

  lemma AdditionsAll(p: string -> bool, d: Document, template: seq<TemplateEntry>, t: nat)
    requires AllOfTemplate(p, template) && t < |template|
    ensures All(p, Additions(d, template[t]))
  {
  }

  lemma {:induction false} NewSectionAll(
      p: string -> bool, d: Document, template: seq<TemplateEntry>, k: nat, section: string)
    requires AllOfTemplate(p, template) && k <= |template| && p("[" + section + "]")
    ensures All(p, NewSection(d, template, k, section))
  {
    if k > 0 {
      NewSectionAll(p, d, template, k - 1, section);
      AdditionsAll(p, d, template, k - 1);
    }
  }

  lemma {:induction false} NewSectionsAll(p: string -> bool, d: Document, template: seq<TemplateEntry>, names: seq<string>)
    requires AllOfTemplate(p, template) && forall name :: name in names ==> p("[" + name + "]")
    ensures All(p, NewSections(d, template, names))
    decreases |names|
  {
    if names != [] {
      var init, last := names[..|names| - 1], names[|names| - 1];
      NewSectionsAll(p, d, template, init);
      NewSectionAll(p, d, template, |template|, last);
    }
  }

  lemma SlotAll(p: string -> bool, d: Document, template: seq<TemplateEntry>, i: nat)
    requires AllOfTemplate(p, template)
    ensures All(p, SlotLines(d, template, i))
  {
    var names := NewNames(d, template, |template|);
    NewNamesAre(d, template, |template|);
    InsertedAll(p, d, template, |template|, i);
    NewSectionsAll(p, d, template, names);
  }

  // ---- Every entry that needs something gets it --------------------------

  lemma {:induction false} InsertedContains(d: Document, template: seq<TemplateEntry>, k: nat, i: nat, t: nat, l: string)
    requires t < k <= |template| && GoesInto(d, template[t], i) && l in Additions(d, template[t])
    ensures l in Inserted(d, template, k, i)
  {
    if t < k - 1 {
      InsertedContains(d, template, k - 1, i, t, l);
    }
  }

  lemma {:induction false} NewSectionContains(
      d: Document, template: seq<TemplateEntry>, k: nat, section: string, t: nat, l: string)
    requires t < k <= |template| && GoesUnder(d, template[t], section) && l in Additions(d, template[t])
    ensures l in NewSection(d, template, k, section)
  {
    if t < k - 1 {
      NewSectionContains(d, template, k - 1, section, t, l);
    }
  }

  lemma {:induction false} NewSectionsContain(
      d: Document, template: seq<TemplateEntry>, names: seq<string>, section: string, l: string)
    requires section in names && l in NewSection(d, template, |template|, section)
    ensures l in NewSections(d, template, names)
    decreases |names|
  {
    if section != names[|names| - 1] {
      NewSectionsContain(d, template, names[..|names| - 1], section, l);
    }
  }

  lemma SlotContains(g: Grammar, d: Document, template: seq<TemplateEntry>, t: nat, l: string)
    requires Sound(g, d) && t < |template| && Needs(d, template[t]) && l in Additions(d, template[t])
    ensures Slot(d, template[t]) <= |d.lines| && l in SlotLines(d, template, Slot(d, template[t]))
  {
    var e := template[t];
    if Known(d, e) {
      InsertedContains(d, template, |template|, Slot(d, e), t, l);
    } else {
      NewNamesAre(d, template, |template|);
      NewSectionContains(d, template, |template|, e.identity.section, t, l);
      NewSectionsContain(d, template, NewNames(d, template, |template|), e.identity.section, l);
    }
  }

  lemma NeedsSomething(d: Document, e: TemplateEntry) returns (l: string)
    requires Needs(d, e)
    ensures l in Additions(d, e)
  {
    l := Additions(d, e)[0];
  }

  /** Nothing is added only when every entry is present and documented. */
  lemma NothingNeeded(g: Grammar, d: Document, template: seq<TemplateEntry>, t: nat)
    requires Sound(g, d) && t < |template| && NothingToAdd(Slots(d, template))
    ensures !Needs(d, template[t])
  {
    if Needs(d, template[t]) {
      var l := NeedsSomething(d, template[t]);
      SlotContains(g, d, template, t, l);
    }
  }

  lemma {:induction false} NothingInserted(d: Document, template: seq<TemplateEntry>, k: nat, i: nat)
    requires k <= |template| && forall t :: 0 <= t < k ==> !Needs(d, template[t])
    ensures Inserted(d, template, k, i) == [] && NewNames(d, template, k) == []
  {
    if k > 0 {
      NothingInserted(d, template, k - 1, i);
    }
  }

  lemma NothingNeededAddsNothing(d: Document, template: seq<TemplateEntry>)
    requires forall t :: 0 <= t < |template| ==> !Needs(d, template[t])
    ensures NothingToAdd(Slots(d, template))
  {
    forall i | 0 <= i <= |d.lines|
      ensures SlotLines(d, template, i) == []
    {
      NothingInserted(d, template, |template|, i);
    }
  }

  // ---- The lines of the result -------------------------------------------

  lemma {:induction false} WovenAll(p: string -> bool, lines: seq<string>, slots: seq<seq<string>>, nl: string, i: nat)
    requires i <= |lines| < |slots|
    requires forall l: string :: p(l + nl) == p(l)
    requires All(p, lines) && forall j :: 0 <= j <= |lines| ==> All(p, slots[j])
    ensures All(p, Woven(lines, slots, nl, i))
  {
    assert All(p, slots[i]);
    if i > 0 {
      WovenAll(p, lines, slots, nl, i - 1);
    }
  }

  lemma {:induction false} WovenContainsAdded(
      lines: seq<string>, slots: seq<seq<string>>, nl: string, i: nat, j: nat, l: string)
    requires j <= i <= |lines| < |slots| && l in slots[j]
    ensures l + nl in Woven(lines, slots, nl, i)
  {
    if i == j {
      var at :| 0 <= at < |slots[j]| && slots[j][at] == l;
      assert Broken(slots[j], nl)[at] == l + nl;
    } else {
      WovenContainsAdded(lines, slots, nl, i - 1, j, l);
    }
  }

  lemma {:induction false} WovenContainsKept(lines: seq<string>, slots: seq<seq<string>>, nl: string, i: nat, j: nat)
    requires j < i <= |lines| < |slots|
    ensures KeptLine(lines[j], slots[j + 1], nl) in Woven(lines, slots, nl, i)
  {
    if j < i - 1 {
      WovenContainsKept(lines, slots, nl, i - 1, j);
    }
  }

  lemma CommentIn(g: Grammar, lines: seq<string>, l: string)
    requires l in lines && g.kind(l).Comment?
    ensures g.kind(l).text in CommentsOf(g, lines)
  {
  }

  /** Every entry's marker is among the comments of the result. */
  lemma MarkerIsWoven(g: Grammar, d: Document, template: seq<TemplateEntry>, nl: string, t: nat)
    requires IgnoresBreaks(g) && Sound(g, d) && ValidTemplate(g, template) && IsNewline(nl) && t < |template|
    ensures template[t].marker in CommentsOf(g, Woven(d.lines, Slots(d, template), nl, |d.lines|))
  {
    var e, slots, n := template[t], Slots(d, template), |d.lines|;
    if Documented(d, e) {
      var j :| 0 <= j < n && g.kind(d.lines[j]).Comment? && g.kind(d.lines[j]).text == e.marker;
      var kept := KeptLine(d.lines[j], slots[j + 1], nl);
      WovenContainsKept(d.lines, slots, nl, n, j);
      BreakIsIdle(g, d.lines[j], nl);
      CommentIn(g, Woven(d.lines, slots, nl, n), kept);
    } else {
      assert e.marker in Additions(d, e);
      SlotContains(g, d, template, t, e.marker);
      WovenContainsAdded(d.lines, slots, nl, n, Slot(d, e), e.marker);
      BreakIsIdle(g, e.marker, nl);
      assert ValidEntry(g, e);
      CommentIn(g, Woven(d.lines, slots, nl, n), e.marker + nl);
    }
  }

  lemma OneLinersOfTemplate(g: Grammar, template: seq<TemplateEntry>)
    requires ValidTemplate(g, template)
    ensures AllOfTemplate(l => '\n' !in l, template)
  {
    var p := (l: string) => '\n' !in l;
    forall t | 0 <= t < |template|
      ensures All(p, template[t].comments) && p(template[t].assignment) && p("[" + template[t].identity.section + "]")
    {
      assert ValidEntry(g, template[t]);
    }
  }

  lemma PlainTemplate(g: Grammar, template: seq<TemplateEntry>)
    requires IgnoresBreaks(g) && ValidTemplate(g, template)
    ensures AllOfTemplate(g.plain, template)
  {
    forall t | 0 <= t < |template|
      ensures All(g.plain, template[t].comments) && g.plain(template[t].assignment)
      ensures g.plain("[" + template[t].identity.section + "]")
    {
      assert ValidEntry(g, template[t]);
    }
  }

  lemma WovenIsPlain(g: Grammar, d: Document, template: seq<TemplateEntry>, nl: string)
    requires IgnoresBreaks(g) && ValidTemplate(g, template) && IsNewline(nl) && ArePlain(g, d.lines)
    ensures ArePlain(g, Woven(d.lines, Slots(d, template), nl, |d.lines|))
  {
    PlainTemplate(g, template);
    forall j | 0 <= j <= |d.lines|
      ensures All(g.plain, Slots(d, template)[j])
    {
      SlotAll(g.plain, d, template, j);
    }
    WovenAll(g.plain, d.lines, Slots(d, template), nl, |d.lines|);
  }

  lemma SlotsAreOneLiners(g: Grammar, d: Document, template: seq<TemplateEntry>)
    requires ValidTemplate(g, template)
    ensures AllOneLiners(Slots(d, template))
  {
    OneLinersOfTemplate(g, template);
    forall j | 0 <= j <= |d.lines|
      ensures OneLiners(Slots(d, template)[j])
    {
      SlotAll(l => '\n' !in l, d, template, j);
    }
  }

  // ---- The laws ----------------------------------------------------------

  /** The text's values are on single lines: no quote is left open, no line ends in a backslash. */
  ghost predicate SingleLine(text: string) {
    ArePlain(INI, Lines(text))
  }

  function ValuesIn(text: string, id: Id): seq<string> {
    Values(Read(INI, "", Lines(text)), id)
  }

  function IdsIn(text: string): set<Id> {
    IdsOf(Read(INI, "", Lines(text)))
  }

  function CommentsIn(text: string): set<string> {
    CommentsOf(INI, Lines(text))
  }

  /** When something is added, the result means what the woven lines mean. */
  lemma MergedMeansWoven(text: string, template: seq<TemplateEntry>)
    requires SingleLine(text) && ValidTemplate(INI, template)
    requires !NothingToAdd(Slots(DocumentOf(Lines(text)), template))
    ensures var d := DocumentOf(Lines(text));
      SameMeaning(INI, Lines(Merged(text, template)), Woven(d.lines, Slots(d, template), NewlineOf(text), |d.lines|))
  {
    var d, nl := DocumentOf(Lines(text)), NewlineOf(text);
    DocumentIsSound(text);
    SlotsAreOneLiners(INI, d, template);
    WithIsWoven(d.lines, Slots(d, template), nl, |d.lines|);
    IniIgnoresBreaks();
    StrippingIsIdle(INI, With(d.lines, Slots(d, template), nl, |d.lines|), nl);
  }

  lemma NothingMissing(text: string, template: seq<TemplateEntry>, t: nat)
    requires SingleLine(text) && t < |template| && NothingToAdd(Slots(DocumentOf(Lines(text)), template))
    ensures Merged(text, template) == text
    ensures !Needs(DocumentOf(Lines(text)), template[t])
  {
    DocumentIsSound(text);
    NothingNeeded(INI, DocumentOf(Lines(text)), template, t);
  }

  /** Every key the user has, and every key the template does not name, keeps its list of values. */
  lemma MergeKeepsValues(text: string, template: seq<TemplateEntry>, id: Id)
    requires SingleLine(text) && ValidTemplate(INI, template)
    requires id in IdsIn(text) || forall t :: 0 <= t < |template| ==> template[t].identity != id
    ensures ValuesIn(Merged(text, template), id) == ValuesIn(text, id)
  {
    var d := DocumentOf(Lines(text));
    if !NothingToAdd(Slots(d, template)) {
      DocumentIsSound(text);
      IniIgnoresBreaks();
      MergedMeansWoven(text, template);
      OthersKeepValues(INI, d, template, NewlineOf(text), id);
    }
  }

  /** Every key the template names and the user lacks gets the template's value, once, in its own section. */
  lemma MergeAddsMissing(text: string, template: seq<TemplateEntry>, t: nat)
    requires SingleLine(text) && ValidTemplate(INI, template) && t < |template|
    requires template[t].identity !in IdsIn(text)
    ensures ValuesIn(Merged(text, template), template[t].identity) == [ValueOf(INI, template[t])]
  {
    var d := DocumentOf(Lines(text));
    if NothingToAdd(Slots(d, template)) {
      NothingMissing(text, template, t);
      assert false;
    } else {
      DocumentIsSound(text);
      IniIgnoresBreaks();
      MergedMeansWoven(text, template);
      MissingGetValue(INI, d, template, NewlineOf(text), t);
    }
  }

  /** Afterwards every entry of the template is documented. */
  lemma MergeDocumentsAll(text: string, template: seq<TemplateEntry>, t: nat)
    requires SingleLine(text) && ValidTemplate(INI, template) && t < |template|
    ensures template[t].marker in CommentsIn(Merged(text, template))
  {
    var d := DocumentOf(Lines(text));
    DocumentIsSound(text);
    if NothingToAdd(Slots(d, template)) {
      NothingMissing(text, template, t);
    } else {
      IniIgnoresBreaks();
      MergedMeansWoven(text, template);
      MarkerIsWoven(INI, d, template, NewlineOf(text), t);
    }
  }

  lemma ValuesMeanPresence(text: string, id: Id)
    ensures id in IdsIn(text) <==> ValuesIn(text, id) != []
  {
    var items := Read(INI, "", Lines(text));
    ValuesTellIds(items, id, |items|);
  }

  /** The guard of the code: every key of the template is there. */
  lemma MergeHasEveryKey(text: string, template: seq<TemplateEntry>, t: nat)
    requires SingleLine(text) && ValidTemplate(INI, template) && t < |template|
    ensures template[t].identity in IdsIn(Merged(text, template))
  {
    var id := template[t].identity;
    if id in IdsIn(text) {
      MergeKeepsValues(text, template, id);
    } else {
      MergeAddsMissing(text, template, t);
    }
    ValuesMeanPresence(text, id);
    ValuesMeanPresence(Merged(text, template), id);
  }

  lemma MergeStaysSingleLine(text: string, template: seq<TemplateEntry>)
    requires SingleLine(text) && ValidTemplate(INI, template)
    ensures SingleLine(Merged(text, template))
  {
    var d := DocumentOf(Lines(text));
    if !NothingToAdd(Slots(d, template)) {
      IniIgnoresBreaks();
      MergedMeansWoven(text, template);
      WovenIsPlain(INI, d, template, NewlineOf(text));
    }
  }

  /** A second merge changes nothing. */
  lemma MergeIsIdempotent(text: string, template: seq<TemplateEntry>)
    requires SingleLine(text) && ValidTemplate(INI, template)
    ensures Merged(Merged(text, template), template) == Merged(text, template)
  {
    var merged := Merged(text, template);
    var d := DocumentOf(Lines(merged));
    MergeStaysSingleLine(text, template);
    DocumentIsSound(merged);
    forall t | 0 <= t < |template|
      ensures !Needs(d, template[t])
    {
      MergeHasEveryKey(text, template, t);
      MergeDocumentsAll(text, template, t);
    }
    NothingNeededAddsNothing(d, template);
  }
}
