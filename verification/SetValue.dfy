/**
 `set_value` (src/config/document.rs): the first assignment of one key gets a new value, and
 nothing else of the text changes. An offset of the code is the start of a line; here it is the
 number of lines before it.
 */
module SetValue {
  import opened Wrappers
  import opened Text
  import opened IniGrammar
  import opened Merging
  import opened MergeMeaning
  import opened MergeResult
  import opened ConfigDocument
  import opened Template
  import opened SettingValue

  // ---- The first assignment of a key -------------------------------------

  predicate Assigns(g: Grammar, lines: seq<string>, at: nat, id: Id)
    requires at < |lines|
  {
    g.kind(lines[at]).Entry? && g.kind(lines[at]).key == id.key && SectionAt(g, lines, at) == id.section
  }

  ghost predicate FirstAssigns(g: Grammar, lines: seq<string>, at: nat, id: Id) {
    at < |lines| && Assigns(g, lines, at, id) && forall j :: 0 <= j < at ==> !Assigns(g, lines, j, id)
  }

  ghost predicate KeysAreFirst(g: Grammar, lines: seq<string>, k: nat, keys: map<Id, nat>)
    requires k <= |lines|
  {
    && (forall id <- keys :: keys[id] < k && FirstAssigns(g, lines, keys[id], id))
    && (forall id, j :: 0 <= j < k && id !in keys ==> !Assigns(g, lines, j, id))
  }

  lemma NextKeyIsFirst(g: Grammar, lines: seq<string>, k: nat, keys: map<Id, nat>, keys': map<Id, nat>)
    requires k < |lines| && KeysAreFirst(g, lines, k, keys)
    requires keys' == match g.kind(lines[k])
                      case Entry(key, _) => OrInsert(keys, Id(SectionAt(g, lines, k), key), k)
                      case _ => keys
    ensures KeysAreFirst(g, lines, k + 1, keys')
  {
  }

  lemma NextLayoutKey(lines: seq<string>, k: nat, st: Scanned, st': Scanned)
    requires 0 < k <= |lines| && st' == ScanLine(st, lines[k - 1], k - 1)
    requires st.quote.None? && !st.continuation && st.section == SectionAt(INI, lines, k - 1)
    requires KeysAreFirst(INI, lines, k - 1, st.layout.keys)
    ensures KeysAreFirst(INI, lines, k, st'.layout.keys)
  {
    NextKeyIsFirst(INI, lines, k - 1, st.layout.keys, st'.layout.keys);
  }

  lemma ScannedPlainly(lines: seq<string>, k: nat)
    requires k <= |lines| && ArePlain(INI, lines)
    ensures var st := ScanTo(lines, k); st.quote.None? && !st.continuation && st.section == SectionAt(INI, lines, k)
  {
    ScanLocates(lines, k);
  }

  /** The layout knows the first assignment of every key. */
  lemma {:induction false} LayoutKeysAreFirst(lines: seq<string>, k: nat)
    requires k <= |lines| && ArePlain(INI, lines)
    ensures KeysAreFirst(INI, lines, k, ScanTo(lines, k).layout.keys)
  {
    if k > 0 {
      LayoutKeysAreFirst(lines, k - 1);
      ScannedPlainly(lines, k - 1);
      NextLayoutKey(lines, k, ScanTo(lines, k - 1), ScanTo(lines, k));
    }
  }

  // ---- One line changed --------------------------------------------------

  /** The same key with another value. */
  predicate SameKey(a: Kind, b: Kind) { a.Entry? && b.Entry? && a.key == b.key }

  lemma {:induction false} ChangedSections(g: Grammar, lines: seq<string>, at: nat, l: string, k: nat)
    requires at < |lines| && k <= |lines| && SameKey(g.kind(lines[at]), g.kind(l))
    ensures SectionAt(g, lines[at := l], k) == SectionAt(g, lines, k)
  {
    if k > 0 {
      ChangedSections(g, lines, at, l, k - 1);
    }
  }

  /** The values of a key in the first `k` lines. */
  function ValuesThrough(g: Grammar, lines: seq<string>, id: Id, k: nat): seq<string>
    requires k <= |lines|
  {
    if k == 0 then []
    else ValuesThrough(g, lines, id, k - 1) + if Assigns(g, lines, k - 1, id) then [g.kind(lines[k - 1]).value] else []
  }

  lemma {:induction false} ThroughIsRead(g: Grammar, lines: seq<string>, id: Id, k: nat)
    requires k <= |lines|
    ensures ValuesThrough(g, lines, id, k) == Values(ReadTo(g, "", lines, k), id)
  {
    if k > 0 {
      ThroughIsRead(g, lines, id, k - 1);
      var line := ReadLine(g, SectionAt(g, lines, k - 1), lines[k - 1]);
      ValuesAppend(ReadTo(g, "", lines, k - 1), line, id);
      if g.kind(lines[k - 1]).Entry? {
        OneValue(line[0], id);
      }
    }
  }

  lemma {:induction false} NoneBefore(g: Grammar, lines: seq<string>, id: Id, k: nat)
    requires k <= |lines| && forall j :: 0 <= j < k ==> !Assigns(g, lines, j, id)
    ensures ValuesThrough(g, lines, id, k) == []
  {
    if k > 0 {
      NoneBefore(g, lines, id, k - 1);
    }
  }

  lemma ChangedAssigns(g: Grammar, lines: seq<string>, at: nat, l: string, id: Id, j: nat)
    requires at < |lines| && j < |lines| && SameKey(g.kind(lines[at]), g.kind(l))
    ensures Assigns(g, lines[at := l], j, id) <==> Assigns(g, lines, j, id)
  {
    ChangedSections(g, lines, at, l, j);
  }

  lemma {:induction false} OthersKeep(g: Grammar, lines: seq<string>, at: nat, l: string, id: Id, k: nat)
    requires at < |lines| && k <= |lines| && SameKey(g.kind(lines[at]), g.kind(l))
    requires k <= at || !Assigns(g, lines, at, id)
    ensures ValuesThrough(g, lines[at := l], id, k) == ValuesThrough(g, lines, id, k)
  {
    if k > 0 {
      OthersKeep(g, lines, at, l, id, k - 1);
      ChangedAssigns(g, lines, at, l, id, k - 1);
    }
  }

  lemma RestAppends(first: string, values: seq<string>, more: seq<string>)
    requires values != []
    ensures [first] + values[1..] + more == [first] + (values + more)[1..]
  {
  }

  lemma {:induction false} FirstChanges(g: Grammar, lines: seq<string>, at: nat, l: string, id: Id, k: nat)
    requires FirstAssigns(g, lines, at, id) && at < k <= |lines| && SameKey(g.kind(lines[at]), g.kind(l))
    ensures var old_ := ValuesThrough(g, lines, id, k);
      |old_| > 0 && ValuesThrough(g, lines[at := l], id, k) == [g.kind(l).value] + old_[1..]
  {
    ChangedAssigns(g, lines, at, l, id, k - 1);
    if k == at + 1 {
      NoneBefore(g, lines, id, at);
      OthersKeep(g, lines, at, l, id, at);
    } else {
      FirstChanges(g, lines, at, l, id, k - 1);
      RestAppends(g.kind(l).value, ValuesThrough(g, lines, id, k - 1),
                  if Assigns(g, lines, k - 1, id) then [g.kind(lines[k - 1]).value] else []);
    }
  }

  // ---- The text ----------------------------------------------------------

  lemma {:induction false} SplitAgain(lines: seq<string>)
    requires AreLines(lines)
    ensures Lines(Concat(lines)) == lines
    decreases |lines|
  {
    if lines != [] {
      var first, rest := lines[0], lines[1..];
      assert forall i :: 0 <= i < |rest| ==> rest[i] == lines[i + 1];
      SplitAgain(rest);
      OneLine(first, |lines| == 1);
      if rest == [] {
        assert first + "" == first;
      } else {
        LinesOfConcat(first, Concat(rest));
      }
    }
  }

  /** The text with the line at `at` giving the key a new value. */
  function Changed(text: string, at: nat, value: string): string
    requires at < |Lines(text)| && Separator(Body(Lines(text)[at])) < |Body(Lines(text)[at])|
  {
    Concat(Lines(text)[at := Replaced(Lines(text)[at], value)])
  }

  lemma ChangedLines(text: string, at: nat, value: string)
    requires at < |Lines(text)| && Separator(Body(Lines(text)[at])) < |Body(Lines(text)[at])| && '\n' !in value
    ensures Lines(Changed(text, at, value)) == Lines(text)[at := Replaced(Lines(text)[at], value)]
  {
    var lines := Lines(text);
    var lines' := lines[at := Replaced(lines[at], value)];
    forall i | 0 <= i < |lines'|
      ensures IsLine(lines'[i], i == |lines'| - 1)
    {
      LinesAreLines(text, i);
      if i == at {
        ReplacedIsLine(lines[at], at == |lines| - 1, value);
      }
    }
    SplitAgain(lines');
  }

  /** What `set_value` edits: the first assignment of the key in the merged text. */
  ghost predicate Editable(merged: string, id: Id, at: nat) {
    && SingleLine(merged) && OrdinaryKey(id.key)
    && id in LayoutOf(Lines(merged)).keys && at == LayoutOf(Lines(merged)).keys[id]
  }

  lemma EditableLine(merged: string, id: Id, at: nat)
    requires Editable(merged, id, at)
    ensures FirstAssigns(INI, Lines(merged), at, id) && IsLine(Lines(merged)[at], at == |Lines(merged)| - 1)
  {
    LayoutKeysAreFirst(Lines(merged), |Lines(merged)|);
    LinesAreLines(merged, at);
  }

  lemma EditableIffPresent(merged: string, id: Id)
    requires SingleLine(merged)
    ensures id in LayoutOf(Lines(merged)).keys <==> id in IdsIn(merged)
  {
    DocumentIsSound(merged);
    ScanLocates(Lines(merged), |Lines(merged)|);
  }

  /** The key has the new value first, then its other values as before; every other key keeps its
      values; every other line is as it was; and the text still has its values on single lines. */
  lemma ChangedMeans(merged: string, id: Id, at: nat, value: string, other: Id)
    requires Editable(merged, id, at) && PlainValue(value)
    ensures at < |Lines(merged)| && Separator(Body(Lines(merged)[at])) < |Body(Lines(merged)[at])|
    ensures var updated := Changed(merged, at, value);
      && Lines(updated) == Lines(merged)[at := Replaced(Lines(merged)[at], value)]
      && ValuesIn(merged, id) != [] && ValuesIn(updated, id) == [Trim(value)] + ValuesIn(merged, id)[1..]
      && (other != id ==> ValuesIn(updated, other) == ValuesIn(merged, other))
      && SingleLine(updated)
  {
    EditableLine(merged, id, at);
    var lines := Lines(merged);
    ReplacedReads(lines[at], at == |lines| - 1, value);
    ReplacedIsPlain(lines[at], at == |lines| - 1, value);
    ChangedLines(merged, at, value);
    var lines' := lines[at := Replaced(lines[at], value)];
    FirstChanges(INI, lines, at, lines'[at], id, |lines|);
    ThroughIsRead(INI, lines, id, |lines|);
    ThroughIsRead(INI, lines', id, |lines|);
    if other != id {
      OthersKeep(INI, lines, at, lines'[at], other, |lines|);
      ThroughIsRead(INI, lines, other, |lines|);
      ThroughIsRead(INI, lines', other, |lines|);
    }
  }

  // ---- The guards --------------------------------------------------------

  /** What the code checks before it gives out the result. */
  predicate Confirmed(text: string, updated: string, id: Id, value: string) {
    && (forall other <- IdsIn(text) :: other != id ==> ValuesIn(updated, other) == ValuesIn(text, other))
    && (id in IdsIn(text) ==>
          var before, after := ValuesIn(text, id), ValuesIn(updated, id);
          |after| == |before| && (before != [] ==> after[1..] == before[1..]))
    && ValuesIn(updated, id) != [] && ValuesIn(updated, id)[0] == value
  }

  /** The guards turn away exactly the values that do not read back as they are given. */
  lemma ConfirmedIffTrimmed(text: string, template: seq<TemplateEntry>, id: Id, at: nat, value: string)
    requires SingleLine(text) && ValidTemplate(INI, template)
    requires Editable(Merged(text, template), id, at) && PlainValue(value)
    ensures at < |Lines(Merged(text, template))|
    ensures var raw := Lines(Merged(text, template))[at]; Separator(Body(raw)) < |Body(raw)|
    ensures Confirmed(text, Changed(Merged(text, template), at, value), id, value) <==> Trim(value) == value
  {
    var merged := Merged(text, template);
    ChangedMeans(merged, id, at, value, id);
    forall other <- IdsIn(text)
      ensures ValuesIn(merged, other) == ValuesIn(text, other)
      ensures other != id ==> ValuesIn(Changed(merged, at, value), other) == ValuesIn(text, other)
    {
      MergeKeepsValues(text, template, other);
      ChangedMeans(merged, id, at, value, other);
    }
  }

  // ---- As the code runs it -----------------------------------------------

  datatype SetError =
    | HasLineBreak
    | NotMerged(error: MergeError)
    | NotInTemplate
    | NotAnAssignment
    | ChangesOthers(other: Id)
    | ChangesPriority
    | NotEffective

  lemma {:induction false} KeysInRange(lines: seq<string>, k: nat)
    requires k <= |lines|
    ensures forall id <- ScanTo(lines, k).layout.keys :: ScanTo(lines, k).layout.keys[id] < k
  {
    if k > 0 {
      KeysInRange(lines, k - 1);
    }
  }

  lemma TemplateIsOneLiners(defaults: string)
    ensures AllOfTemplate(l => '\n' !in l, EntriesOf(defaults))
  {
    ReadingIsWellRead(defaults, |Lines(defaults)|);
    var entries := EntriesOf(defaults);
    forall t | 0 <= t < |entries|
      ensures All(l => '\n' !in l, entries[t].comments) && '\n' !in entries[t].assignment
      ensures '\n' !in "[" + entries[t].identity.section + "]"
    {
      assert WellRead(entries[t]);
    }
  }

  method Confirm(text: string, updated: string, id: Id, value: string) returns (r: Result<string, SetError>)
    ensures r.Ok? <==> Confirmed(text, updated, id, value)
    ensures r.Ok? ==> r.value == updated
  {
    var ids := IdsIn(text);
    var left := ids;
    while left != {}
      invariant left <= ids
      invariant forall other <- ids - left :: other != id ==> ValuesIn(updated, other) == ValuesIn(text, other)
      invariant id in ids - left ==>
        var before, after := ValuesIn(text, id), ValuesIn(updated, id);
        |after| == |before| && (before != [] ==> after[1..] == before[1..])
      decreases |left|
    {
      var entry :| entry in left;
      var before, after := ValuesIn(text, entry), ValuesIn(updated, entry);
      if entry != id && after != before {
        return Err(ChangesOthers(entry));
      }
      if entry == id && (|after| != |before| || (before != [] && after[1..] != before[1..])) {
        return Err(ChangesPriority);
      }
      left := left - {entry};
    }
    var after := ValuesIn(updated, id);
    if after == [] || after[0] != value {
      return Err(NotEffective);
    }
    r := Ok(updated);
  }

  /** `set_value`. On single-line values it succeeds exactly for the keys of the merged text and the
      values without spaces around them, and then it is `Changed`, with everything that means. */
  method SetValue(text: string, id: Id, value: string, defaults: string) returns (r: Result<string, SetError>)
    ensures r.Ok? ==>
      var merged := Merged(text, EntriesOf(defaults));
      var keys := LayoutOf(Lines(merged)).keys;
      && id in keys && keys[id] < |Lines(merged)|
      && Separator(Body(Lines(merged)[keys[id]])) < |Body(Lines(merged)[keys[id]])|
      && r.value == Changed(merged, keys[id], value) && Confirmed(text, r.value, id, value)
    ensures SingleLine(text) && Documents(EntriesOf(defaults)) && OrdinaryKey(id.key) && PlainValue(value) && '\0' !in value ==>
      (r.Ok? <==> id in IdsIn(Merged(text, EntriesOf(defaults))) && Trim(value) == value)
  {
    if '\r' in value || '\n' in value || '\0' in value {
      return Err(HasLineBreak);
    }
    var template := TemplateEntries(defaults);
    TemplateIsOneLiners(defaults);
    TemplateIsValid(defaults);
    var merging := MergeMissing(text, template);
    if merging.Err? {
      return Err(NotMerged(merging.error));
    }
    var merged := merging.value;
    var lines := Lines(merged);
    var layout := ScanLayout(merged);
    SetValueIsExact(text, template, id, value);
    if id !in layout.keys {
      return Err(NotInTemplate);
    }
    var at := layout.keys[id];
    KeysInRange(lines, |lines|);
    if Separator(Body(lines[at])) == |Body(lines[at])| {
      return Err(NotAnAssignment);
    }
    r := Confirm(text, Changed(merged, at, value), id, value);
  }

  /** Why `set_value` succeeds just then. */
  lemma SetValueIsExact(text: string, template: seq<TemplateEntry>, id: Id, value: string)
    ensures SingleLine(text) && ValidTemplate(INI, template) && OrdinaryKey(id.key) && PlainValue(value) ==>
      var merged := Merged(text, template);
      var keys := LayoutOf(Lines(merged)).keys;
      && (id in keys <==> id in IdsIn(merged))
      && (id in keys ==>
            && keys[id] < |Lines(merged)| && Separator(Body(Lines(merged)[keys[id]])) < |Body(Lines(merged)[keys[id]])|
            && (Confirmed(text, Changed(merged, keys[id], value), id, value) <==> Trim(value) == value))
  {
    if SingleLine(text) && ValidTemplate(INI, template) && OrdinaryKey(id.key) && PlainValue(value) {
      var merged := Merged(text, template);
      MergeStaysSingleLine(text, template);
      EditableIffPresent(merged, id);
      var keys := LayoutOf(Lines(merged)).keys;
      if id in keys {
        ConfirmedIffTrimmed(text, template, id, keys[id], value);
      }
    }
  }
}
