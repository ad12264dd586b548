/**
 The line that `set_value` edits (src/config/document.rs): the value is replaced, what is around
 it stays, and the line reads as the same key with the new value.
 */
module SettingValue {
  import opened Wrappers
  import opened Text
  import opened IniGrammar
  import opened Template

  // ---- The line ----------------------------------------------------------

  /** The line without its line feed. */
  function Body(raw: string): (r: string)
    ensures r <= raw
  {
    if raw != "" && raw[|raw| - 1] == '\n' then raw[..|raw| - 1] else raw
  }

  /** Where the first `=` or `:` is. */
  function Separator(line: string): (at: nat)
    ensures at <= |line|
  {
    var equals, colon := Find(line, '='), Find(line, ':');
    if equals < colon then equals else colon
  }

  /** How many blanks the string begins with. */
  function Blanks(s: string): (n: nat)
    ensures n <= |s| && forall i :: 0 <= i < n ==> IsSpace(s[i])
  {
    if s != "" && (s[0] == ' ' || s[0] == '\t') then
      assert forall i :: 0 < i <= Blanks(s[1..]) ==> s[i] == s[1..][i - 1];
      1 + Blanks(s[1..])
    else 0
  }

  /** The length of the string without the blanks and carriage returns at its end. */
  function VisibleLength(s: string): (n: nat)
    ensures n <= |s| && forall i :: n <= i < |s| ==> IsSpace(s[i])
  {
    if s != "" && (s[|s| - 1] == ' ' || s[|s| - 1] == '\t' || s[|s| - 1] == '\r') then VisibleLength(s[..|s| - 1]) else |s|
  }

  function Least(a: nat, b: nat): nat { if a < b then a else b }

  /** Where the value begins after the separator at `at`, but no later than the visible part ends. */
  function ValueStart(line: string, at: nat): (start: nat)
    requires at < |line|
    ensures start <= VisibleLength(line)
  {
    Least(at + 1 + Blanks(line[at + 1..]), VisibleLength(line))
  }

  function Around(line: string, start: nat, value: string, raw: string, end: nat): string
    requires start <= |line| && end <= |raw|
  {
    line[..start] + value + raw[end..]
  }

  /** The line with its value replaced; the blanks around it stay. */
  function Replaced(raw: string, value: string): string
    requires Separator(Body(raw)) < |Body(raw)|
  {
    var line := Body(raw);
    Around(line, ValueStart(line, Separator(line)), value, raw, VisibleLength(line))
  }

  predicate AllSpaces(s: string) {
    forall i :: 0 <= i < |s| ==> IsSpace(s[i])
  }

  lemma {:induction false} SpacesTrimAway(s: string, spaces: string)
    requires AllSpaces(spaces)
    ensures TrimEnd(s + spaces) == TrimEnd(s)
    decreases |spaces|
  {
    if spaces == "" {
      assert s + spaces == s;
    } else {
      var init := spaces[..|spaces| - 1];
      assert (s + spaces)[..|s + spaces| - 1] == s + init;
      assert IsSpace((s + spaces)[|s + spaces| - 1]);
      SpacesTrimAway(s, init);
    }
  }

  lemma {:induction false} SpacesTrimAwayInFront(spaces: string, s: string)
    requires AllSpaces(spaces)
    ensures TrimStart(spaces + s) == TrimStart(s)
    decreases |spaces|
  {
    if spaces == "" {
      assert spaces + s == s;
    } else {
      assert (spaces + s)[1..] == spaces[1..] + s;
      SpacesTrimAwayInFront(spaces[1..], s);
    }
  }

  /** Trimming the end stops at the first visible character. */
  lemma {:induction false} TrimEndOfConcat(s: string, t: string)
    requires TrimEnd(t) != ""
    ensures TrimEnd(s + t) == s + TrimEnd(t)
    decreases |t|
  {
    if IsSpace(t[|t| - 1]) {
      var init := t[..|t| - 1];
      assert (s + t)[..|s + t| - 1] == s + init;
      TrimEndOfConcat(s, init);
    }
  }

  lemma {:induction false} TrimStartOfConcat(s: string, t: string)
    requires TrimStart(s) != ""
    ensures TrimStart(s + t) == TrimStart(s) + t
    decreases |s|
  {
    if IsSpace(s[0]) {
      assert (s + t)[1..] == s[1..] + t;
      TrimStartOfConcat(s[1..], t);
    }
  }

  predicate IsSeparator(c: char) { c == '=' || c == ':' }

  predicate NoSeparator(s: string) { '=' !in s && ':' !in s }

  /** An assignment taken apart at its separator. */
  lemma TrimAround(left: string, sep: char, right: string)
    requires IsSeparator(sep)
    ensures Trim(left + [sep] + right) == TrimStart(left) + [sep] + TrimEnd(right)
  {
    assert !IsSpace('=') && !IsSpace(':');
    assert left + [sep] + right == left + ([sep] + right);
    assert TrimEnd([sep] + right) == [sep] + TrimEnd(right) by {
      if TrimEnd(right) == "" {
        var k := TrimEndIs(right);
        SpacesTrimAway([sep], right);
      } else {
        TrimEndOfConcat([sep], right);
      }
    }
    TrimEndOfConcat(left, [sep] + right);
    var tail := [sep] + TrimEnd(right);
    if TrimStart(left) == "" {
      var k := TrimStartIs(left);
      SpacesTrimAwayInFront(left, tail);
      assert "" + [sep] + TrimEnd(right) == tail;
    } else {
      TrimStartOfConcat(left, tail);
      Assoc(TrimStart(left), [sep], TrimEnd(right));
    }
  }

  lemma {:induction false} FindPast(left: string, rest: string, c: char)
    requires c !in left
    ensures Find(left + rest, c) >= |left|
    decreases |left|
  {
    if left != "" {
      assert (left + rest)[1..] == left[1..] + rest;
      FindPast(left[1..], rest, c);
    }
  }

  lemma SeparatorAt(left: string, sep: char, right: string)
    requires IsSeparator(sep) && NoSeparator(left)
    ensures Separator(left + [sep] + right) == |left|
  {
    var line := left + [sep] + right;
    assert line == left + ([sep] + right);
    FindPast(left, [sep] + right, '=');
    FindPast(left, [sep] + right, ':');
    FindFirst(line, sep, |left|);
  }

  lemma AssignmentAt(left: string, sep: char, right: string)
    requires IsSeparator(sep) && NoSeparator(left)
    ensures Assignment(left + [sep] + right) == Some((Trim(left), TrimStart(right)))
  {
    SeparatorAt(left, sep, right);
    var line := left + [sep] + right;
    assert line[..|left|] == left && line[|left| + 1..] == right;
  }

  /** What a line with a separator is, unless it is a comment or begins with a bracket. */
  lemma EntryReads(left: string, sep: char, right: string)
    requires IsSeparator(sep) && NoSeparator(left)
    requires TrimStart(left) == "" || (TrimStart(left)[0] != '[' && !IsComment(TrimStart(left)))
    ensures KindOf(left + [sep] + right) == Entry(Trim(TrimStart(left)), Trim(right))
  {
    TrimAround(left, sep, right);
    var k := TrimStartIs(left);
    assert forall c :: c in left[k..] ==> c in left;
    AssignmentAt(TrimStart(left), sep, TrimEnd(right));
    var line := Trim(left + [sep] + right);
    assert line[0] == if TrimStart(left) == "" then sep else TrimStart(left)[0];
  }

  /** A key that cannot be taken for a section. */
  predicate OrdinaryKey(key: string) {
    key == "" || key[0] != '['
  }

  /** What an assignment begins with. */
  lemma EntryBegins(left: string, sep: char, right: string)
    requires IsSeparator(sep) && NoSeparator(left)
    requires KindOf(left + [sep] + right).Entry? && OrdinaryKey(KindOf(left + [sep] + right).key)
    ensures TrimStart(left) == "" || (TrimStart(left)[0] != '[' && !IsComment(TrimStart(left)))
  {
    TrimAround(left, sep, right);
    var k := TrimStartIs(left);
    assert forall c :: c in left[k..] ==> c in left;
    AssignmentAt(TrimStart(left), sep, TrimEnd(right));
    var first := TrimStart(left);
    if first != "" {
      var line := Trim(left + [sep] + right);
      assert line[0] == first[0];
      var e := TrimEndIs(first);
      assert e > 0;
      var j := TrimStartIs(first[..e]);
      assert Trim(first) == first[..e] && Trim(first)[0] == first[0];
    }
  }

  lemma ValueTrims(blanks: string, value: string, rest: string)
    requires AllSpaces(blanks) && AllSpaces(rest)
    ensures Trim(blanks + value + rest) == Trim(value)
  {
    SpacesTrimAway(blanks + value, rest);
    if TrimEnd(value) == "" {
      var k := TrimEndIs(value);
      SpacesTrimAway(blanks, value);
      SpacesTrimAway("", blanks);
      assert "" + blanks == blanks;
    } else {
      TrimEndOfConcat(blanks, value);
      SpacesTrimAwayInFront(blanks, TrimEnd(value));
    }
  }

  lemma SeparatorIsFirst(line: string)
    requires Separator(line) < |line|
    ensures NoSeparator(line[..Separator(line)]) && IsSeparator(line[Separator(line)])
  {
    var at := Separator(line);
    assert line[..at] <= line[..Find(line, '=')] && line[..at] <= line[..Find(line, ':')];
    assert forall c :: c in line[..at] ==> c in line[..Find(line, '=')] && c in line[..Find(line, ':')];
  }

  lemma BodyParts(raw: string, last: bool)
    requires IsLine(raw, last)
    ensures '\n' !in Body(raw) && (raw == Body(raw) || raw == Body(raw) + "\n")
  {
  }

  /** The blanks after the separator at `at`, up to `end`, and what follows `end`. */
  lemma AroundValue(line: string, at: nat) returns (start: nat, end: nat)
    requires at < |line| && !IsSpace(line[at])
    ensures start == ValueStart(line, at) && end == VisibleLength(line)
    ensures at < start <= end <= |line|
    ensures AllSpaces(line[at + 1..start]) && AllSpaces(line[end..])
  {
    end := VisibleLength(line);
    start := ValueStart(line, at);
    var blanks := line[at + 1..start];
    assert forall i :: 0 <= i < |blanks| ==> blanks[i] == line[at + 1..][i];
  }

  lemma SplitAt<T>(s: seq<T>, at: nat, start: nat)
    requires at < start <= |s|
    ensures s[..start] == s[..at] + [s[at]] + s[at + 1..start]
  {
  }

  lemma Regroup<T>(left: seq<T>, sep: seq<T>, blanks: seq<T>, value: seq<T>, rest: seq<T>)
    ensures left + sep + blanks + value + rest == left + sep + (blanks + value + rest)
  {
  }

  lemma RestIs(raw: string, line: string, end: nat)
    requires end <= |line| && line <= raw && '\n' !in line && AllSpaces(line[end..])
    requires raw == line || raw == line + "\n"
    ensures raw[end..] == line[end..] + raw[|line|..] && '\n' !in line[end..] && AllSpaces(raw[end..])
  {
    assert IsSpace('\n');
    assert forall c :: c in line[end..] ==> c in line;
  }

  lemma FrontIs(raw: string, line: string, at: nat, start: nat)
    requires at < start <= |line| && line <= raw && '\n' !in line
    ensures raw == line[..at] + [line[at]] + raw[at + 1..]
    ensures '\n' !in line[..at] && '\n' !in line[at + 1..start]
  {
    assert forall c :: c in line[..at] ==> c in line;
    assert forall c :: c in line[at + 1..start] ==> c in line;
  }

  /** Where a line is taken apart. */
  datatype Parts = Parts(left: string, sep: char, blanks: string, trail: string, end: string)

  ghost predicate AreParts(raw: string, line: string, p: Parts) {
    && IsSeparator(p.sep) && NoSeparator(p.left) && |p.left| < |raw| && raw == p.left + [p.sep] + raw[|p.left| + 1..]
    && AllSpaces(p.blanks) && AllSpaces(p.trail + p.end) && line <= raw && p.end == raw[|line|..]
    && '\n' !in p.left && '\n' !in p.blanks && '\n' !in p.trail
  }

  lemma PartsOf(raw: string, line: string, value: string, at: nat, start: nat, end: nat) returns (p: Parts)
    requires at < start <= end <= |line| && line <= raw && '\n' !in line && (raw == line || raw == line + "\n")
    requires AllSpaces(line[at + 1..start]) && AllSpaces(line[end..])
    requires NoSeparator(line[..at]) && IsSeparator(line[at])
    ensures AreParts(raw, line, p)
    ensures Around(line, start, value, raw, end) == p.left + [p.sep] + (p.blanks + value + (p.trail + p.end))
  {
    FrontIs(raw, line, at, start);
    RestIs(raw, line, end);
    p := Parts(line[..at], line[at], line[at + 1..start], line[end..], raw[|line|..]);
    SplitAt(line, at, start);
    Regroup(p.left, [p.sep], p.blanks, value, raw[end..]);
  }

  /** The line is put together again from the same parts, around the new value. */
  lemma ReplacedParts(raw: string, last: bool, value: string) returns (p: Parts)
    requires IsLine(raw, last) && Separator(Body(raw)) < |Body(raw)|
    ensures AreParts(raw, Body(raw), p)
    ensures Replaced(raw, value) == p.left + [p.sep] + (p.blanks + value + (p.trail + p.end))
  {
    var line := Body(raw);
    var at := Separator(line);
    SeparatorIsFirst(line);
    BodyParts(raw, last);
    var start, end := AroundValue(line, at);
    p := PartsOf(raw, line, value, at, start, end);
  }

  lemma EntryHasSeparator(raw: string, last: bool)
    requires IsLine(raw, last) && KindOf(raw).Entry?
    ensures Separator(Body(raw)) < |Body(raw)|
  {
    var line := Trim(raw);
    var at := Separator(line);
    assert IsSeparator(line[at]);
    TrimIsTrimmed(raw);
    assert line[at] in raw;
    var j :| 0 <= j < |raw| && raw[j] == line[at];
    assert Body(raw)[j] == line[at];
    FindFirst(Body(raw), line[at], j);
  }

  lemma ReplacedReads(raw: string, last: bool, value: string)
    requires IsLine(raw, last) && KindOf(raw).Entry? && OrdinaryKey(KindOf(raw).key)
    ensures Separator(Body(raw)) < |Body(raw)|
    ensures KindOf(Replaced(raw, value)) == Entry(KindOf(raw).key, Trim(value))
  {
    EntryHasSeparator(raw, last);
    var p := ReplacedParts(raw, last, value);
    var right := raw[|p.left| + 1..];
    EntryBegins(p.left, p.sep, right);
    EntryReads(p.left, p.sep, right);
    EntryReads(p.left, p.sep, p.blanks + value + (p.trail + p.end));
    ValueTrims(p.blanks, value, p.trail + p.end);
  }

  lemma ReplacedIsLine(raw: string, last: bool, value: string)
    requires IsLine(raw, last) && Separator(Body(raw)) < |Body(raw)| && '\n' !in value
    ensures IsLine(Replaced(raw, value), last)
  {
    var p := ReplacedParts(raw, last, value);
    BodyParts(raw, last);
    LineOfParts(p, value, last);
  }

  lemma LineOfParts(p: Parts, value: string, last: bool)
    requires '\n' !in p.left && p.sep != '\n' && '\n' !in p.blanks && '\n' !in value && '\n' !in p.trail
    requires p.end == "\n" || (p.end == "" && last)
    ensures IsLine(p.left + [p.sep] + (p.blanks + value + (p.trail + p.end)), last)
  {
    var before := p.left + [p.sep] + (p.blanks + value + p.trail);
    assert '\n' !in before;
    assert p.left + [p.sep] + (p.blanks + value + (p.trail + p.end)) == before + p.end;
  }

  // ---- The value stays on its line ---------------------------------------

  /** A value that neither opens a quote nor runs on into the next line. */
  predicate PlainValue(value: string) {
    && '\n' !in value && '\r' !in value
    && (Trim(value) == "" || (Trim(value)[0] != '\'' && Trim(value)[0] != '"'))
    && (value == "" || value[|value| - 1] != '\\')
  }

  lemma {:induction false} SpacesDoNotContinue(s: string, spaces: string)
    requires AllSpaces(spaces) && Continues(s + spaces)
    ensures Continues(s)
    decreases |spaces|
  {
    if spaces == "" {
      assert s + spaces == s;
    } else {
      var all, last := s + spaces, spaces[|spaces| - 1];
      assert all[|all| - 1] == last && IsSpace(last) && !IsSpace('\\');
      if last == '\r' || last == '\n' {
        assert all[..|all| - 1] == s + spaces[..|spaces| - 1];
        SpacesDoNotContinue(s, spaces[..|spaces| - 1]);
      }
    }
  }

  lemma DoesNotContinue(s: string)
    requires s != "" && s[|s| - 1] != '\\' && s[|s| - 1] != '\r' && s[|s| - 1] != '\n'
    ensures !Continues(s)
  {
  }

  lemma PlainValueDoesNotContinue(before: string, blanks: string, value: string, rest: string)
    requires before != "" && IsSeparator(before[|before| - 1]) && AllSpaces(blanks) && AllSpaces(rest) && PlainValue(value)
    ensures !Continues(before + (blanks + value + rest))
  {
    var shown := before + blanks + value;
    assert before + (blanks + value + rest) == shown + rest;
    if value == "" {
      assert shown == before + blanks;
      DoesNotContinue(before);
      if Continues(shown) {
        SpacesDoNotContinue(before, blanks);
      }
    } else {
      assert shown[|shown| - 1] == value[|value| - 1];
      DoesNotContinue(shown);
    }
    if Continues(shown + rest) {
      SpacesDoNotContinue(shown, rest);
    }
  }

  lemma ReplacedIsPlain(raw: string, last: bool, value: string)
    requires IsLine(raw, last) && KindOf(raw).Entry? && OrdinaryKey(KindOf(raw).key) && PlainValue(value)
    ensures Separator(Body(raw)) < |Body(raw)| && IsPlain(Replaced(raw, value))
  {
    ReplacedReads(raw, last, value);
    var p := ReplacedParts(raw, last, value);
    PlainValueDoesNotContinue(p.left + [p.sep], p.blanks, value, p.trail + p.end);
  }
}
