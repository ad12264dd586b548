/**
 `merge_missing` keeps every line of the user's text, in order and to the character
 (src/config/document.rs): the only change is a line break after an unfinished last line
 when something follows it.
 */
module MergeLines {
  import opened Text
  import opened IniGrammar
  import opened Merging
  import opened MergeResult

  /** The same line, given a line break if it had none. */
  predicate SameLine(l: string, l': string) {
    l' == l || (!Terminated(l) && (l' == l + "\n" || l' == l + "\r\n"))
  }

  /** The first `i` lines appear, in order, among the first `k` others. */
  ghost predicate Embeds(lines: seq<string>, i: nat, others: seq<string>, k: nat)
    requires i <= |lines| && k <= |others|
    decreases k
  {
    || i == 0
    || (k > 0 && SameLine(lines[i - 1], others[k - 1]) && Embeds(lines, i - 1, others, k - 1))
    || (k > 0 && Embeds(lines, i, others, k - 1))
  }

  lemma {:induction false} EmbedsPrefix(lines: seq<string>, i: nat, xs: seq<string>, ys: seq<string>, k: nat)
    requires i <= |lines| && k <= |xs| && Embeds(lines, i, xs, k)
    ensures Embeds(lines, i, xs + ys, k)
    decreases k
  {
    if i > 0 {
      if SameLine(lines[i - 1], xs[k - 1]) && Embeds(lines, i - 1, xs, k - 1) {
        EmbedsPrefix(lines, i - 1, xs, ys, k - 1);
      } else {
        EmbedsPrefix(lines, i, xs, ys, k - 1);
      }
    }
  }

  lemma {:induction false} EmbedsMore(lines: seq<string>, i: nat, xs: seq<string>, k: nat, m: nat)
    requires i <= |lines| && k <= m <= |xs| && Embeds(lines, i, xs, k)
    ensures Embeds(lines, i, xs, m)
  {
    if k < m {
      EmbedsMore(lines, i, xs, k, m - 1);
    }
  }

  lemma EmbedsAppend(lines: seq<string>, i: nat, xs: seq<string>, ys: seq<string>)
    requires i <= |lines| && Embeds(lines, i, xs, |xs|)
    ensures Embeds(lines, i, xs + ys, |xs + ys|)
  {
    EmbedsPrefix(lines, i, xs, ys, |xs|);
    EmbedsMore(lines, i, xs + ys, |xs|, |xs + ys|);
  }

  lemma EmbedsNext(lines: seq<string>, i: nat, xs: seq<string>, l: string)
    requires i < |lines| && Embeds(lines, i, xs, |xs|) && SameLine(lines[i], l)
    ensures Embeds(lines, i + 1, xs + [l], |xs| + 1)
  {
    EmbedsPrefix(lines, i, xs, [l], |xs|);
  }

  lemma {:induction false} WovenEmbeds(lines: seq<string>, slots: seq<seq<string>>, nl: string, i: nat)
    requires i <= |lines| < |slots| && IsNewline(nl)
    ensures Embeds(lines, i, Woven(lines, slots, nl, i), |Woven(lines, slots, nl, i)|)
  {
    if i > 0 {
      WovenEmbeds(lines, slots, nl, i - 1);
      var before, kept := Woven(lines, slots, nl, i - 1), KeptLine(lines[i - 1], slots[i], nl);
      EmbedsNext(lines, i - 1, before, kept);
      EmbedsAppend(lines, i, before + [kept], Broken(slots[i], nl));
    }
  }

  // ---- Removing trailing line breaks stops at the added text -------------

  predicate IsBreak(c: char) { c == '\r' || c == '\n' }

  lemma {:induction false} StrippingKeeps(s: string, nl: string, at: nat) returns (m: nat)
    requires IsNewline(nl) && at < |s| && !IsBreak(s[at])
    ensures at < m <= |s| && StripTrailing(s, nl) == s[..m]
    decreases |s|
  {
    if EndsWith(s, nl) {
      assert forall j :: 0 <= j < |nl| ==> s[|s| - |nl| + j] == nl[j];
      var shorter := s[..|s| - |nl|];
      m := StrippingKeeps(shorter, nl, at);
      assert shorter[..m] == s[..m];
    } else {
      m := |s|;
      assert s[..m] == s;
    }
  }

  lemma {:induction false} TrimmedEnd(l: string)
    ensures TrimEnd(l) <= l && (TrimEnd(l) != "" ==> !IsSpace(TrimEnd(l)[|TrimEnd(l)| - 1]))
  {
    if l != "" && IsSpace(l[|l| - 1]) {
      TrimmedEnd(l[..|l| - 1]);
    }
  }

  lemma SpaceIsBlank(l: string)
    requires TrimEnd(l) == ""
    ensures KindOf(l) == Blank
  {
    assert Trim(l) == "";
  }

  /** A line that is something has a character that is not a line break. */
  lemma SomethingVisible(l: string) returns (at: nat)
    requires KindOf(l) != Blank
    ensures at < |l| && !IsBreak(l[at])
  {
    TrimmedEnd(l);
    if TrimEnd(l) == "" {
      SpaceIsBlank(l);
    }
    at := |TrimEnd(l)| - 1;
    assert l[at] == TrimEnd(l)[at];
  }

  lemma {:induction false} RenderShows(lines: seq<string>, nl: string, l: string, at: nat) returns (q: nat)
    requires l in lines && at < |l|
    ensures q < |Render(lines, nl)| && Render(lines, nl)[q] == l[at]
  {
    if lines[0] == l {
      q := at;
    } else {
      q := RenderShows(lines[1..], nl, l, at);
      q := |lines[0] + nl| + q;
    }
  }

  // ---- Anything added shows ----------------------------------------------

  lemma AdditionsShow(g: Grammar, d: Document, e: TemplateEntry) returns (l: string)
    requires ValidEntry(g, e) && Needs(d, e)
    ensures l in Additions(d, e) && g.kind(l) != Blank
  {
    if Documented(d, e) {
      l := e.assignment;
      assert Additions(d, e)[0] == l;
    } else {
      l := e.comments[0];
      assert Additions(d, e)[0] == l;
    }
  }

  lemma {:induction false} InsertedShows(g: Grammar, d: Document, template: seq<TemplateEntry>, k: nat, i: nat) returns (l: string)
    requires ValidTemplate(g, template) && k <= |template| && Inserted(d, template, k, i) != []
    ensures l in Inserted(d, template, k, i) && g.kind(l) != Blank
  {
    var e := template[k - 1];
    if GoesInto(d, e, i) {
      assert ValidEntry(g, e);
      l := AdditionsShow(g, d, e);
    } else {
      assert Inserted(d, template, k, i) == Inserted(d, template, k - 1, i);
      l := InsertedShows(g, d, template, k - 1, i);
    }
  }

  lemma NewSectionsShow(g: Grammar, d: Document, template: seq<TemplateEntry>, names: seq<string>) returns (l: string)
    requires names != [] && forall name :: name in names ==> g.kind("[" + name + "]") == Header(name)
    ensures l in NewSections(d, template, names) && g.kind(l) != Blank
  {
    var last := names[|names| - 1];
    l := "[" + last + "]";
    HeaderIsThere(d, template, |template|, last);
  }

  lemma {:induction false} HeaderIsThere(d: Document, template: seq<TemplateEntry>, k: nat, section: string)
    requires k <= |template|
    ensures "[" + section + "]" in NewSection(d, template, k, section)
  {
    if k == 0 {
      assert SectionStart(section)[1] == "[" + section + "]";
    } else {
      HeaderIsThere(d, template, k - 1, section);
    }
  }

  lemma SlotShows(g: Grammar, d: Document, template: seq<TemplateEntry>, i: nat) returns (l: string)
    requires ValidTemplate(g, template) && SlotLines(d, template, i) != []
    ensures l in SlotLines(d, template, i) && g.kind(l) != Blank
  {
    if Inserted(d, template, |template|, i) != [] {
      l := InsertedShows(g, d, template, |template|, i);
    } else {
      NewNamesAreHeaders(g, d, template);
      l := NewSectionsShow(g, d, template, NewNames(d, template, |template|));
    }
  }

  // ---- The law -----------------------------------------------------------

  /** The lines up to and including an unfinished last line that gets a line break. */
  lemma KeptPartEmbeds(lines: seq<string>, slots: seq<seq<string>>, nl: string, before: string)
    requires 0 < |lines| < |slots| && IsNewline(nl) && !Terminated(lines[|lines| - 1]) && IsLine(lines[|lines| - 1], true)
    requires Lines(before) == Woven(lines, slots, nl, |lines| - 1) && Terminated(before)
    ensures var kept := before + lines[|lines| - 1] + nl;
      Terminated(kept) && Embeds(lines, |lines|, Lines(kept), |Lines(kept)|)
  {
    var n := |lines|;
    var last := lines[n - 1];
    LinesEndingIn(before, last, nl);
    WovenEmbeds(lines, slots, nl, n - 1);
    EmbedsNext(lines, n - 1, Lines(before), last + nl);
  }

  lemma LinesEndingIn(before: string, last: string, nl: string)
    requires IsNewline(nl) && IsLine(last, true) && !Terminated(last) && Terminated(before)
    ensures Lines(before + last + nl) == Lines(before) + [last + nl] && Terminated(before + last + nl)
  {
    assert forall c :: c in last ==> c != '\n';
    LinesOfOne(last, nl);
    LinesOfConcat(before, last + nl);
    Assoc(before, last, nl);
  }

  lemma UnfinishedInsert(before: string, last: string, added: seq<string>, nl: string)
    requires added != [] && last != "" && !Terminated(last)
    ensures Insert(before + last, added, nl) == before + last + nl + Render(added, nl)
  {
    TerminatedConcat(before, last);
  }

  /** Removing trailing line breaks after something visible leaves what is before it alone. */
  lemma StrippedEmbeds(lines: seq<string>, kept: string, added: seq<string>, nl: string, l: string)
    requires IsNewline(nl) && Terminated(kept) && Embeds(lines, |lines|, Lines(kept), |Lines(kept)|)
    requires l in added && KindOf(l) != Blank
    ensures var stripped := StripTrailing(kept + Render(added, nl), nl);
      Embeds(lines, |lines|, Lines(stripped), |Lines(stripped)|)
  {
    var rendered := Render(added, nl);
    var at := SomethingVisible(l);
    var q := RenderShows(added, nl, l, at);
    var m := StrippingKeeps(kept + rendered, nl, |kept| + q);
    var rest := rendered[..m - |kept|];
    assert (kept + rendered)[..m] == kept + rest;
    LinesOfConcat(kept, rest);
    EmbedsAppend(lines, |lines|, Lines(kept), Lines(rest));
  }

  lemma NothingToStrip(before: string, last: string, nl: string)
    requires IsNewline(nl) && last != "" && !Terminated(last)
    ensures StripTrailing(before + last, nl) == before + last
  {
    TerminatedConcat(before, last);
    EndsInBreak(before + last, nl);
  }

  lemma EndsInBreak(s: string, nl: string)
    requires IsNewline(nl)
    ensures EndsWith(s, nl) ==> Terminated(s)
  {
    assert EndsWith(s, nl) ==> s == s[..|s| - |nl|] + nl;
  }

  lemma FilledLastSlot(lines: seq<string>, slots: seq<seq<string>>, nl: string, l: string)
    requires 0 < |lines| < |slots| && AreLines(lines) && AllOneLiners(slots) && IsNewline(nl)
    requires !Terminated(lines[|lines| - 1]) && l in slots[|lines|] && KindOf(l) != Blank
    ensures var merged := StripTrailing(With(lines, slots, nl, |lines|), nl);
      Embeds(lines, |lines|, Lines(merged), |Lines(merged)|)
  {
    var n := |lines|;
    WithIsWoven(lines, slots, nl, n - 1);
    var before := With(lines, slots, nl, n - 1);
    KeptPartEmbeds(lines, slots, nl, before);
    UnfinishedInsert(before, lines[n - 1], slots[n], nl);
    StrippedEmbeds(lines, before + lines[n - 1] + nl, slots[n], nl, l);
  }

  /** After an unfinished last line: `l` is something visible among what follows it, if anything does. */
  lemma LastSlotKeepsLines(lines: seq<string>, slots: seq<seq<string>>, nl: string, l: string)
    requires 0 < |lines| < |slots| && AreLines(lines) && AllOneLiners(slots) && IsNewline(nl)
    requires !Terminated(lines[|lines| - 1])
    requires slots[|lines|] != [] ==> l in slots[|lines|] && KindOf(l) != Blank
    ensures var merged := StripTrailing(With(lines, slots, nl, |lines|), nl);
      Embeds(lines, |lines|, Lines(merged), |Lines(merged)|)
  {
    var n := |lines|;
    if slots[n] != [] {
      FilledLastSlot(lines, slots, nl, l);
    } else {
      WithIsWoven(lines, slots, nl, n - 1);
      NothingToStrip(With(lines, slots, nl, n - 1), lines[n - 1], nl);
      WithIsWoven(lines, slots, nl, n);
      WovenEmbeds(lines, slots, nl, n);
    }
  }

  /** A text whose last line is unfinished. */
  lemma UnfinishedKeepsLines(text: string, template: seq<TemplateEntry>)
    requires SingleLine(text) && ValidTemplate(INI, template) && !Terminated(text)
    ensures var lines, nl := Lines(text), NewlineOf(text);
      var merged := StripTrailing(With(lines, Slots(DocumentOf(lines), template), nl, |lines|), nl);
      Embeds(lines, |lines|, Lines(merged), |Lines(merged)|)
  {
    var lines := Lines(text);
    var d := DocumentOf(lines);
    var slots := Slots(d, template);
    DocumentIsSound(text);
    SlotsAreOneLiners(INI, d, template);
    LastLine(text);
    var l := "";
    if slots[|lines|] != [] {
      l := SlotShows(INI, d, template, |lines|);
    }
    LastSlotKeepsLines(lines, slots, NewlineOf(text), l);
  }

  /** Every line the user wrote is in the result, in the order they wrote them. */
  lemma MergeKeepsLines(text: string, template: seq<TemplateEntry>)
    requires SingleLine(text) && ValidTemplate(INI, template)
    ensures Embeds(Lines(text), |Lines(text)|, Lines(Merged(text, template)), |Lines(Merged(text, template))|)
  {
    var lines, nl := Lines(text), NewlineOf(text);
    var d, n := DocumentOf(lines), |lines|;
    var slots := Slots(d, template);
    if NothingToAdd(slots) {
      EmbedsItself(lines, n);
    } else if Terminated(text) {
      DocumentIsSound(text);
      SlotsAreOneLiners(INI, d, template);
      WithIsWoven(lines, slots, nl, n);
      WovenEmbeds(lines, slots, nl, n);
    } else {
      UnfinishedKeepsLines(text, template);
    }
  }

  lemma {:induction false} EmbedsItself(lines: seq<string>, k: nat)
    requires k <= |lines|
    ensures Embeds(lines, k, lines, k)
  {
    if k > 0 {
      EmbedsItself(lines, k - 1);
    }
  }
}
