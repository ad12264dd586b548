/**
 `merge_missing` preserves what the user's document means, adds what the template lacks,
 and has nothing left to do the second time (src/config/document.rs).
 */
module MergeMeaning {
  import opened Text
  import opened IniGrammar
  import opened Merging

  // ---- The values of one key ---------------------------------------------

  lemma {:induction false} ValuesTellIds(items: seq<Item>, id: Id, k: nat)
    requires k <= |items|
    ensures ValuesTo(items, id, k) != [] <==> exists i :: 0 <= i < k && items[i].id == id
  {
    if k > 0 {
      ValuesTellIds(items, id, k - 1);
    }
  }

  lemma OneValue(item: Item, id: Id)
    ensures Values([item], id) == if item.id == id then [item.value] else []
  {
    assert ValuesTo([item], id, 0) == [];
  }

  lemma NewItemValues(g: Grammar, d: Document, e: TemplateEntry, id: Id)
    ensures Values(NewItem(g, d, e), id) == if !Exists(d, e) && e.identity == id then [ValueOf(g, e)] else []
  {
    if !Exists(d, e) {
      OneValue(Item(e.identity, ValueOf(g, e)), id);
    }
  }

  // ---- The values of a missing key ---------------------------------------

  /** Entry `t` is missing from the document. */
  predicate Missing(d: Document, template: seq<TemplateEntry>, t: nat)
    requires t < |template|
  {
    !Exists(d, template[t])
  }

  lemma InsertedStep(g: Grammar, d: Document, template: seq<TemplateEntry>, k: nat, i: nat, id: Id)
    requires 0 < k <= |template|
    ensures Values(InsertedItems(g, d, template, k, i), id)
         == Values(InsertedItems(g, d, template, k - 1, i), id)
            + if GoesInto(d, template[k - 1], i) && !Exists(d, template[k - 1]) && template[k - 1].identity == id
              then [ValueOf(g, template[k - 1])] else []
  {
    var e := template[k - 1];
    NewItemValues(g, d, e, id);
    ValuesAppend(InsertedItems(g, d, template, k - 1, i), if GoesInto(d, e, i) then NewItem(g, d, e) else [], id);
  }

  lemma NewSectionStep(g: Grammar, d: Document, template: seq<TemplateEntry>, k: nat, section: string, id: Id)
    requires 0 < k <= |template|
    ensures Values(NewSectionItems(g, d, template, k, section), id)
         == Values(NewSectionItems(g, d, template, k - 1, section), id)
            + if GoesUnder(d, template[k - 1], section) && !Exists(d, template[k - 1]) && template[k - 1].identity == id
              then [ValueOf(g, template[k - 1])] else []
  {
    var e := template[k - 1];
    NewItemValues(g, d, e, id);
    ValuesAppend(NewSectionItems(g, d, template, k - 1, section), if GoesUnder(d, e, section) then NewItem(g, d, e) else [], id);
  }

  /** What one entry gives its own key: its value where it goes, nothing elsewhere. */
  function Share(g: Grammar, template: seq<TemplateEntry>, t: nat, goes: bool): seq<string>
    requires t < |template|
  {
    if goes then [ValueOf(g, template[t])] else []
  }

  /** A missing key gets its value from its own entry, and only where that entry goes. */
  lemma {:induction false} InsertedValues(g: Grammar, d: Document, template: seq<TemplateEntry>, k: nat, i: nat, t: nat)
    requires ValidTemplate(g, template) && k <= |template| && t < |template| && Missing(d, template, t)
    ensures Values(InsertedItems(g, d, template, k, i), template[t].identity)
         == Share(g, template, t, t < k && GoesInto(d, template[t], i))
  {
    if k > 0 {
      InsertedStep(g, d, template, k, i, template[t].identity);
      InsertedValues(g, d, template, k - 1, i, t);
    }
  }

  lemma {:induction false} NewSectionValues(
      g: Grammar, d: Document, template: seq<TemplateEntry>, k: nat, section: string, t: nat)
    requires ValidTemplate(g, template) && k <= |template| && t < |template| && Missing(d, template, t)
    ensures Values(NewSectionItems(g, d, template, k, section), template[t].identity)
         == Share(g, template, t, t < k && GoesUnder(d, template[t], section))
  {
    if k > 0 {
      NewSectionStep(g, d, template, k, section, template[t].identity);
      NewSectionValues(g, d, template, k - 1, section, t);
    }
  }

  predicate Distinct(names: seq<string>) {
    forall i, j :: 0 <= i < j < |names| ==> names[i] != names[j]
  }

  lemma LastName(names: seq<string>, name: string)
    requires names != [] && Distinct(names)
    ensures Distinct(names[..|names| - 1])
    ensures name in names <==> name in names[..|names| - 1] || name == names[|names| - 1]
    ensures names[|names| - 1] !in names[..|names| - 1]
  {
    assert names == names[..|names| - 1] + [names[|names| - 1]];
  }

  lemma {:induction false} NewSectionsValues(
      g: Grammar, d: Document, template: seq<TemplateEntry>, names: seq<string>, t: nat)
    requires ValidTemplate(g, template) && t < |template| && Missing(d, template, t) && Distinct(names)
    ensures Values(NewSectionsItems(g, d, template, names), template[t].identity)
         == Share(g, template, t, !Known(d, template[t]) && template[t].identity.section in names)
    decreases |names|
  {
    if names != [] {
      var init, last := names[..|names| - 1], names[|names| - 1];
      LastName(names, template[t].identity.section);
      NewSectionsValues(g, d, template, init, t);
      NewSectionValues(g, d, template, |template|, last, t);
      ValuesAppend(NewSectionsItems(g, d, template, init), NewSectionItems(g, d, template, |template|, last),
                   template[t].identity);
    }
  }

  lemma SlotValues(g: Grammar, d: Document, template: seq<TemplateEntry>, i: nat, t: nat)
    requires Sound(g, d) && ValidTemplate(g, template) && t < |template| && Missing(d, template, t)
    requires i <= |d.lines|
    ensures Values(SlotItems(g, d, template, i), template[t].identity)
         == Share(g, template, t, i == Slot(d, template[t]))
  {
    var e, names := template[t], NewNames(d, template, |template|);
    InsertedValues(g, d, template, |template|, i, t);
    NewNamesAre(d, template, |template|);
    NewSectionsValues(g, d, template, names, t);
    var more := if i == |d.lines| then NewSectionsItems(g, d, template, names) else [];
    ValuesAppend(InsertedItems(g, d, template, |template|, i), more, e.identity);
    assert Needs(d, e);
  }

  // ---- The values of the other keys --------------------------------------

  /** The key is not one of the template's missing keys. */
  ghost predicate NotMissing(d: Document, template: seq<TemplateEntry>, id: Id) {
    forall t :: 0 <= t < |template| && Missing(d, template, t) ==> template[t].identity != id
  }

  lemma {:induction false} InsertedLeaves(g: Grammar, d: Document, template: seq<TemplateEntry>, k: nat, i: nat, id: Id)
    requires k <= |template| && NotMissing(d, template, id)
    ensures Values(InsertedItems(g, d, template, k, i), id) == []
  {
    if k > 0 {
      InsertedLeaves(g, d, template, k - 1, i, id);
      InsertedStep(g, d, template, k, i, id);
      assert Missing(d, template, k - 1) ==> template[k - 1].identity != id;
    }
  }

  lemma {:induction false} NewSectionLeaves(
      g: Grammar, d: Document, template: seq<TemplateEntry>, k: nat, section: string, id: Id)
    requires k <= |template| && NotMissing(d, template, id)
    ensures Values(NewSectionItems(g, d, template, k, section), id) == []
  {
    if k > 0 {
      NewSectionLeaves(g, d, template, k - 1, section, id);
      NewSectionStep(g, d, template, k, section, id);
      assert Missing(d, template, k - 1) ==> template[k - 1].identity != id;
    }
  }

  lemma {:induction false} NewSectionsLeave(
      g: Grammar, d: Document, template: seq<TemplateEntry>, names: seq<string>, id: Id)
    requires NotMissing(d, template, id)
    ensures Values(NewSectionsItems(g, d, template, names), id) == []
    decreases |names|
  {
    if names != [] {
      var init, last := names[..|names| - 1], names[|names| - 1];
      NewSectionsLeave(g, d, template, init, id);
      NewSectionLeaves(g, d, template, |template|, last, id);
      ValuesAppend(NewSectionsItems(g, d, template, init), NewSectionItems(g, d, template, |template|, last), id);
    }
  }

  lemma SlotLeaves(g: Grammar, d: Document, template: seq<TemplateEntry>, i: nat, id: Id)
    requires NotMissing(d, template, id)
    ensures Values(SlotItems(g, d, template, i), id) == []
  {
    var names := NewNames(d, template, |template|);
    InsertedLeaves(g, d, template, |template|, i, id);
    NewSectionsLeave(g, d, template, names, id);
    var more := if i == |d.lines| then NewSectionsItems(g, d, template, names) else [];
    ValuesAppend(InsertedItems(g, d, template, |template|, i), more, id);
  }

  // ---- The values in the whole result ------------------------------------

  /** Reading on after a line of the text and what follows it. */
  lemma FollowReads(
      g: Grammar, before: seq<string>, l: string, added: seq<string>, nl: string, section: string, next: string, id: Id)
    requires IgnoresBreaks(g) && IsNewline(nl) && SectionAfter(g, "", before) == section
    requires next == if g.kind(l).Header? then g.kind(l).name else section
    ensures Values(Read(g, "", Follow(before, l, added, nl)), id)
         == Values(Read(g, "", before), id) + (Values(ReadLine(g, section, l), id) + Values(Read(g, next, added), id))
    ensures SectionAfter(g, "", Follow(before, l, added, nl)) == SectionAfter(g, next, added)
  {
    var kept := KeptLine(l, added, nl);
    BreakIsIdle(g, l, nl);
    ReadOne(g, section, kept);
    ReadAppends(g, "", before, [kept]);
    ReadAppends(g, "", before + [kept], Broken(added, nl));
    BrokenReadsTheSame(g, next, added, nl);
    ValuesAppend(Read(g, "", before), ReadLine(g, section, l), id);
    ValuesAppend(Read(g, "", before) + ReadLine(g, section, l), Read(g, next, added), id);
    Assoc(Values(Read(g, "", before), id), Values(ReadLine(g, section, l), id), Values(Read(g, next, added), id));
  }

  /** What is put before each line leaves the section as it is. */
  ghost predicate KeepSections(g: Grammar, lines: seq<string>, slots: seq<seq<string>>)
    requires |lines| < |slots|
  {
    forall i {:trigger slots[i]} :: 0 <= i < |lines| ==> SectionAfter(g, SectionAt(g, lines, i), slots[i]) == SectionAt(g, lines, i)
  }

  /** The values of a key in the first `i` lines and what is put among them. */
  function WovenValues(g: Grammar, lines: seq<string>, slots: seq<seq<string>>, nl: string, id: Id, i: nat): seq<string>
    requires i <= |lines| < |slots|
  {
    Values(Read(g, "", Woven(lines, slots, nl, i)), id)
  }

  /** Its values in the `i`-th line, and in what is put after it. */
  function LineValues(g: Grammar, lines: seq<string>, id: Id, i: nat): seq<string>
    requires 0 < i <= |lines|
  {
    Values(ReadLine(g, SectionAt(g, lines, i - 1), lines[i - 1]), id)
  }

  function AddedValues(g: Grammar, lines: seq<string>, slots: seq<seq<string>>, id: Id, i: nat): seq<string>
    requires i <= |lines| < |slots|
  {
    Values(Read(g, SectionAt(g, lines, i), slots[i]), id)
  }

  lemma WovenOn(g: Grammar, lines: seq<string>, slots: seq<seq<string>>, before: seq<string>, nl: string, id: Id, i: nat)
    requires IgnoresBreaks(g) && IsNewline(nl) && 0 < i <= |lines| < |slots|
    requires SectionAfter(g, "", before) == SectionAt(g, lines, i - 1)
    ensures SectionAfter(g, "", Follow(before, lines[i - 1], slots[i], nl))
         == SectionAfter(g, SectionAt(g, lines, i), slots[i])
    ensures Values(Read(g, "", Follow(before, lines[i - 1], slots[i], nl)), id)
         == Values(Read(g, "", before), id) + (LineValues(g, lines, id, i) + AddedValues(g, lines, slots, id, i))
  {
    FollowReads(g, before, lines[i - 1], slots[i], nl, SectionAt(g, lines, i - 1), SectionAt(g, lines, i), id);
  }

  lemma {:induction false} WovenSection(g: Grammar, lines: seq<string>, slots: seq<seq<string>>, nl: string, i: nat)
    requires IgnoresBreaks(g) && IsNewline(nl) && i < |lines| < |slots| && KeepSections(g, lines, slots)
    ensures SectionAfter(g, "", Woven(lines, slots, nl, i)) == SectionAt(g, lines, i)
  {
    if i == 0 {
      BrokenReadsTheSame(g, "", slots[0], nl);
    } else {
      WovenSection(g, lines, slots, nl, i - 1);
      WovenOn(g, lines, slots, Woven(lines, slots, nl, i - 1), nl, Id("", ""), i);
    }
  }

  lemma WovenStep(g: Grammar, lines: seq<string>, slots: seq<seq<string>>, nl: string, id: Id, i: nat)
    requires IgnoresBreaks(g) && IsNewline(nl) && 0 < i <= |lines| < |slots| && KeepSections(g, lines, slots)
    ensures WovenValues(g, lines, slots, nl, id, i)
         == WovenValues(g, lines, slots, nl, id, i - 1)
            + (LineValues(g, lines, id, i) + AddedValues(g, lines, slots, id, i))
  {
    WovenSection(g, lines, slots, nl, i - 1);
    WovenOn(g, lines, slots, Woven(lines, slots, nl, i - 1), nl, id, i);
  }

  lemma WovenStart(g: Grammar, lines: seq<string>, slots: seq<seq<string>>, nl: string, id: Id)
    requires IgnoresBreaks(g) && IsNewline(nl) && |lines| < |slots|
    ensures WovenValues(g, lines, slots, nl, id, 0) == AddedValues(g, lines, slots, id, 0)
  {
    BrokenReadsTheSame(g, "", slots[0], nl);
  }

  lemma NothingAddedStart(g: Grammar, lines: seq<string>, slots: seq<seq<string>>, nl: string, id: Id)
    requires IgnoresBreaks(g) && IsNewline(nl) && |lines| < |slots| && AddedValues(g, lines, slots, id, 0) == []
    ensures WovenValues(g, lines, slots, nl, id, 0) == Values(ReadTo(g, "", lines, 0), id)
  {
    WovenStart(g, lines, slots, nl, id);
    assert ReadTo(g, "", lines, 0) == [];
  }

  lemma NothingAddedStep(g: Grammar, lines: seq<string>, slots: seq<seq<string>>, nl: string, id: Id, i: nat)
    requires IgnoresBreaks(g) && IsNewline(nl) && 0 < i <= |lines| < |slots| && KeepSections(g, lines, slots)
    requires AddedValues(g, lines, slots, id, i) == []
    requires WovenValues(g, lines, slots, nl, id, i - 1) == Values(ReadTo(g, "", lines, i - 1), id)
    ensures WovenValues(g, lines, slots, nl, id, i) == Values(ReadTo(g, "", lines, i), id)
  {
    WovenStep(g, lines, slots, nl, id, i);
    ValuesAppend(ReadTo(g, "", lines, i - 1), ReadLine(g, SectionAt(g, lines, i - 1), lines[i - 1]), id);
    assert LineValues(g, lines, id, i) + [] == LineValues(g, lines, id, i);
  }

  ghost predicate AddsNothing(g: Grammar, lines: seq<string>, slots: seq<seq<string>>, id: Id, i: nat)
    requires i <= |lines| < |slots|
  {
    AddedValues(g, lines, slots, id, i) == [] && (i > 0 ==> AddsNothing(g, lines, slots, id, i - 1))
  }

  /** When nothing put in has values for a key, it keeps exactly those it had. */
  lemma {:induction false} NothingAdded(
      g: Grammar, lines: seq<string>, slots: seq<seq<string>>, nl: string, id: Id, i: nat)
    requires IgnoresBreaks(g) && IsNewline(nl) && i <= |lines| < |slots| && KeepSections(g, lines, slots)
    requires AddsNothing(g, lines, slots, id, i)
    ensures WovenValues(g, lines, slots, nl, id, i) == Values(ReadTo(g, "", lines, i), id)
  {
    if i == 0 {
      NothingAddedStart(g, lines, slots, nl, id);
    } else {
      NothingAdded(g, lines, slots, nl, id, i - 1);
      NothingAddedStep(g, lines, slots, nl, id, i);
    }
  }

  lemma {:induction false} ReadLater(g: Grammar, lines: seq<string>, i: nat, k: nat, id: Id)
    requires 0 < i <= k <= |lines| && id !in IdsOf(ReadTo(g, "", lines, k))
    ensures id !in IdsOf(ReadLine(g, SectionAt(g, lines, i - 1), lines[i - 1]))
  {
    IdsAppend(ReadTo(g, "", lines, k - 1), ReadLine(g, SectionAt(g, lines, k - 1), lines[k - 1]));
    if i < k {
      ReadLater(g, lines, i, k - 1, id);
    }
  }

  lemma NotReadBefore(g: Grammar, lines: seq<string>, id: Id, i: nat)
    requires 0 < i <= |lines| && id !in IdsOf(Read(g, "", lines))
    ensures LineValues(g, lines, id, i) == []
  {
    var item := ReadLine(g, SectionAt(g, lines, i - 1), lines[i - 1]);
    ReadLater(g, lines, i, |lines|, id);
    ValuesTellIds(item, id, |item|);
  }

  lemma NothingBefore(none: seq<string>, some: seq<string>)
    requires none == []
    ensures none + some == some
  {
  }

  lemma OnlyOnce(before: seq<string>, here: seq<string>, values: seq<string>, at: nat, i: nat)
    requires 0 < i && before == (if at <= i - 1 then values else []) && here == if i == at then values else []
    ensures before + here == if at <= i then values else []
  {
  }

  lemma AddedOnceStep(
      g: Grammar, lines: seq<string>, slots: seq<seq<string>>, nl: string, id: Id, at: nat, values: seq<string>, i: nat)
    requires IgnoresBreaks(g) && IsNewline(nl) && 0 < i <= |lines| < |slots| && KeepSections(g, lines, slots)
    requires id !in IdsOf(Read(g, "", lines))
    requires AddedValues(g, lines, slots, id, i) == if i == at then values else []
    requires WovenValues(g, lines, slots, nl, id, i - 1) == if at <= i - 1 then values else []
    ensures WovenValues(g, lines, slots, nl, id, i) == if at <= i then values else []
  {
    WovenStep(g, lines, slots, nl, id, i);
    NotReadBefore(g, lines, id, i);
    NothingBefore(LineValues(g, lines, id, i), AddedValues(g, lines, slots, id, i));
    OnlyOnce(WovenValues(g, lines, slots, nl, id, i - 1), AddedValues(g, lines, slots, id, i), values, at, i);
  }

  /** Among the first `i` lines only one place adds values for a key. */
  ghost predicate AddsAt(
      g: Grammar, lines: seq<string>, slots: seq<seq<string>>, id: Id, at: nat, values: seq<string>, i: nat)
    requires i <= |lines| < |slots|
  {
    && AddedValues(g, lines, slots, id, i) == (if i == at then values else [])
    && (i > 0 ==> AddsAt(g, lines, slots, id, at, values, i - 1))
  }

  /** When the text has no values for a key and one place adds some, the key has just those. */
  lemma {:induction false} AddedOnce(
      g: Grammar, lines: seq<string>, slots: seq<seq<string>>, nl: string, id: Id, at: nat, values: seq<string>, i: nat)
    requires IgnoresBreaks(g) && IsNewline(nl) && i <= |lines| < |slots| && KeepSections(g, lines, slots)
    requires id !in IdsOf(Read(g, "", lines)) && AddsAt(g, lines, slots, id, at, values, i)
    ensures WovenValues(g, lines, slots, nl, id, i) == if at <= i then values else []
  {
    if i == 0 {
      WovenStart(g, lines, slots, nl, id);
    } else {
      AddedOnce(g, lines, slots, nl, id, at, values, i - 1);
      AddedOnceStep(g, lines, slots, nl, id, at, values, i);
    }
  }

  // ---- The result of merging ---------------------------------------------

  lemma SlotsKeepSections(g: Grammar, d: Document, template: seq<TemplateEntry>)
    requires IgnoresBreaks(g) && Sound(g, d) && ValidTemplate(g, template)
    ensures KeepSections(g, d.lines, Slots(d, template))
  {
    forall i | 0 <= i < |d.lines|
      ensures SectionAfter(g, SectionAt(g, d.lines, i), Slots(d, template)[i]) == SectionAt(g, d.lines, i)
    {
      SlotReads(g, d, template, i);
    }
  }

  lemma SlotAddsNothing(g: Grammar, d: Document, template: seq<TemplateEntry>, id: Id, i: nat)
    requires IgnoresBreaks(g) && Sound(g, d) && ValidTemplate(g, template) && NotMissing(d, template, id)
    requires i <= |d.lines|
    ensures AddedValues(g, d.lines, Slots(d, template), id, i) == []
  {
    SlotReads(g, d, template, i);
    SlotLeaves(g, d, template, i, id);
  }

  lemma {:induction false} SlotsAddNothing(g: Grammar, d: Document, template: seq<TemplateEntry>, id: Id, i: nat)
    requires IgnoresBreaks(g) && Sound(g, d) && ValidTemplate(g, template) && NotMissing(d, template, id)
    requires i <= |d.lines|
    ensures AddsNothing(g, d.lines, Slots(d, template), id, i)
  {
    SlotAddsNothing(g, d, template, id, i);
    if i > 0 {
      SlotsAddNothing(g, d, template, id, i - 1);
    }
  }

  lemma OthersKeepValues(g: Grammar, d: Document, template: seq<TemplateEntry>, nl: string, id: Id)
    requires IgnoresBreaks(g) && Sound(g, d) && ValidTemplate(g, template) && IsNewline(nl) && NotMissing(d, template, id)
    ensures WovenValues(g, d.lines, Slots(d, template), nl, id, |d.lines|) == Values(Read(g, "", d.lines), id)
  {
    SlotsKeepSections(g, d, template);
    SlotsAddNothing(g, d, template, id, |d.lines|);
    NothingAdded(g, d.lines, Slots(d, template), nl, id, |d.lines|);
  }

  lemma SlotAddsOnce(g: Grammar, d: Document, template: seq<TemplateEntry>, t: nat, i: nat)
    requires IgnoresBreaks(g) && Sound(g, d) && ValidTemplate(g, template) && i <= |d.lines|
    requires t < |template| && Missing(d, template, t)
    ensures AddedValues(g, d.lines, Slots(d, template), template[t].identity, i)
         == if i == Slot(d, template[t]) then [ValueOf(g, template[t])] else []
  {
    SlotReads(g, d, template, i);
    SlotValues(g, d, template, i, t);
  }

  lemma {:induction false} SlotsAddOnce(g: Grammar, d: Document, template: seq<TemplateEntry>, t: nat, i: nat)
    requires IgnoresBreaks(g) && Sound(g, d) && ValidTemplate(g, template) && i <= |d.lines|
    requires t < |template| && Missing(d, template, t)
    ensures AddsAt(g, d.lines, Slots(d, template), template[t].identity, Slot(d, template[t]),
                   [ValueOf(g, template[t])], i)
  {
    SlotAddsOnce(g, d, template, t, i);
    if i > 0 {
      SlotsAddOnce(g, d, template, t, i - 1);
    }
  }

  lemma MissingGetValue(g: Grammar, d: Document, template: seq<TemplateEntry>, nl: string, t: nat)
    requires IgnoresBreaks(g) && Sound(g, d) && ValidTemplate(g, template) && IsNewline(nl)
    requires t < |template| && Missing(d, template, t)
    ensures WovenValues(g, d.lines, Slots(d, template), nl, template[t].identity, |d.lines|) == [ValueOf(g, template[t])]
  {
    SlotsKeepSections(g, d, template);
    SlotsAddOnce(g, d, template, t, |d.lines|);
    AddedOnce(g, d.lines, Slots(d, template), nl, template[t].identity, Slot(d, template[t]),
              [ValueOf(g, template[t])], |d.lines|);
  }
}
