/**
 The string operations the INI code uses: trimming, splitting into lines and replacing
 line breaks. Strings are sequences of characters, so positions are counted in characters.
 */
module Text {
  /** The Unicode `White_Space` characters that `str::trim` removes. */
  predicate IsSpace(c: char) {
    var n := c as int;
    9 <= n <= 13 || n == 0x20 || n == 0x85 || n == 0xA0 || n == 0x1680 || 0x2000 <= n <= 0x200A
    || n == 0x2028 || n == 0x2029 || n == 0x202F || n == 0x205F || n == 0x3000
  }

  function TrimStart(s: string): string {
    if s != "" && IsSpace(s[0]) then TrimStart(s[1..]) else s
  }

  function TrimEnd(s: string): string {
    if s != "" && IsSpace(s[|s| - 1]) then TrimEnd(s[..|s| - 1]) else s
  }

  function Trim(s: string): string {
    TrimStart(TrimEnd(s))
  }

  predicate IsNewline(nl: string) {
    nl == "\n" || nl == "\r\n"
  }

  /** A line break after a string does not show once it is trimmed. */
  lemma TrimDropsNewline(s: string, nl: string)
    requires IsNewline(nl)
    ensures Trim(s + nl) == Trim(s)
  {
    assert IsSpace('\n') && IsSpace('\r');
    if nl == "\n" {
      assert (s + nl)[..|s|] == s;
    } else {
      assert (s + nl)[..|s| + 1] == s + "\r";
      assert TrimEnd(s + nl) == TrimEnd(s + "\r");
      assert (s + "\r")[..|s|] == s;
    }
  }

  /** Where the first `c` is, if anywhere. */
  function Find(s: string, c: char): (at: nat)
    ensures at <= |s| && c !in s[..at] && (at < |s| ==> s[at] == c)
  {
    if s == "" || s[0] == c then 0 else 1 + Find(s[1..], c)
  }

  lemma {:induction false} FindFirst(s: string, c: char, at: nat)
    requires at < |s| && s[at] == c
    ensures Find(s, c) <= at
  {
    if s[0] != c {
      FindFirst(s[1..], c, at - 1);
    }
  }

  lemma FindIn(s: string, c: char, at: nat)
    requires at < |s| && s[at] == c && c !in s[..at]
    ensures Find(s, c) == at
  {
  }

  lemma Assoc<T>(a: seq<T>, b: seq<T>, c: seq<T>)
    ensures (a + b) + c == a + (b + c)
  {
  }

  predicate Terminated(s: string) {
    s == "" || s[|s| - 1] == '\n'
  }

  /** `split_inclusive('\n')`: every line with its line break, the last perhaps without. */
  function Lines(s: string): (ls: seq<string>)
    decreases |s|
  {
    if s == "" then []
    else
      var at := Find(s, '\n');
      if at == |s| then [s] else [s[..at + 1]] + Lines(s[at + 1..])
  }

  /** No line is empty, and only its last character can be a line break; a line that is not the
      last has one. */
  predicate IsLine(l: string, last: bool) {
    && l != "" && (forall j :: 0 <= j < |l| - 1 ==> l[j] != '\n')
    && (!last ==> l[|l| - 1] == '\n')
  }

  lemma FirstIsLine(s: string)
    requires s != ""
    ensures var at := Find(s, '\n'); if at == |s| then IsLine(s, true) else IsLine(s[..at + 1], false)
  {
    var at := Find(s, '\n');
    forall j | 0 <= j < at
      ensures s[j] != '\n'
    {
      assert s[..at][j] == s[j];
    }
  }

  lemma {:induction false} LinesAreLines(s: string, i: nat)
    requires i < |Lines(s)|
    ensures IsLine(Lines(s)[i], i == |Lines(s)| - 1)
    decreases |s|
  {
    FirstIsLine(s);
    if i > 0 {
      LinesAreLines(s[Find(s, '\n') + 1..], i - 1);
    }
  }

  /** The text ends in a line break exactly when its last line does. */
  lemma {:induction false} LastLine(s: string)
    requires s != ""
    ensures |Lines(s)| > 0 && (Terminated(s) <==> Terminated(Lines(s)[|Lines(s)| - 1]))
    decreases |s|
  {
    var at := Find(s, '\n');
    if at + 1 < |s| {
      LastLine(s[at + 1..]);
    }
  }

  function Concat(ls: seq<string>): string {
    if ls == [] then "" else ls[0] + Concat(ls[1..])
  }

  /** Splitting loses nothing. */
  lemma {:induction false} ConcatOfLines(s: string)
    ensures Concat(Lines(s)) == s
    decreases |s|
  {
    if s != "" {
      var at := Find(s, '\n');
      if at < |s| {
        var first, rest := s[..at + 1], s[at + 1..];
        ConcatOfLines(rest);
        assert ([first] + Lines(rest))[1..] == Lines(rest);
        assert first + rest == s;
      } else {
        assert Lines(s)[1..] == [];
      }
    }
  }

  /** After a complete line, splitting goes on as if from the start. */
  lemma {:induction false} LinesOfConcat(a: string, b: string)
    requires Terminated(a)
    ensures Lines(a + b) == Lines(a) + Lines(b)
    decreases |a|
  {
    if a == "" {
      assert a + b == b;
    } else {
      var at := Find(a, '\n');
      FindFirst(a, '\n', |a| - 1);
      assert (a + b)[..at] == a[..at];
      FindIn(a + b, '\n', at);
      assert (a + b)[..at + 1] == a[..at + 1];
      assert (a + b)[at + 1..] == a[at + 1..] + b;
      LinesOfConcat(a[at + 1..], b);
      Assoc([a[..at + 1]], Lines(a[at + 1..]), Lines(b));
    }
  }

  /** A string without line breaks is one line, with or without one after it. */
  lemma LinesOfOne(s: string, nl: string)
    requires '\n' !in s && (IsNewline(nl) || (nl == "" && s != ""))
    ensures Lines(s + nl) == [s + nl]
  {
    var t := s + nl;
    if nl != "" {
      assert '\n' !in nl[..|nl| - 1];
      assert t[..|t| - 1] == s + nl[..|nl| - 1];
      FindIn(t, '\n', |t| - 1);
      assert t[|t|..] == "";
      assert t[..|t|] == t;
    } else {
      assert t == s;
      assert forall j :: 0 <= j < |t| ==> t[j] in s;
    }
  }

  lemma {:induction false} ConcatAppends(xs: seq<string>, ys: seq<string>)
    ensures Concat(xs + ys) == Concat(xs) + Concat(ys)
  {
    if xs == [] {
      assert xs + ys == ys;
    } else {
      ConcatAppends(xs[1..], ys);
      assert (xs + ys)[1..] == xs[1..] + ys;
      Assoc(xs[0], Concat(xs[1..]), Concat(ys));
    }
  }

  // ---- Added lines -------------------------------------------------------

  /** `lines`, each followed by the line break. */
  function Render(lines: seq<string>, nl: string): string {
    if lines == [] then "" else lines[0] + nl + Render(lines[1..], nl)
  }

  function Broken(lines: seq<string>, nl: string): (r: seq<string>)
    ensures |r| == |lines| && forall i :: 0 <= i < |lines| ==> r[i] == lines[i] + nl
  {
    if lines == [] then [] else [lines[0] + nl] + Broken(lines[1..], nl)
  }

  predicate OneLiners(lines: seq<string>) {
    forall i :: 0 <= i < |lines| ==> '\n' !in lines[i]
  }

  lemma {:induction false} RenderAppends(xs: seq<string>, ys: seq<string>, nl: string)
    ensures Render(xs + ys, nl) == Render(xs, nl) + Render(ys, nl)
  {
    if xs == [] {
      assert xs + ys == ys;
    } else {
      RenderAppends(xs[1..], ys, nl);
      assert (xs + ys)[1..] == xs[1..] + ys;
      Assoc(xs[0] + nl, Render(xs[1..], nl), Render(ys, nl));
    }
  }

  lemma {:induction false} RenderIsLines(lines: seq<string>, nl: string)
    requires IsNewline(nl) && OneLiners(lines)
    ensures Lines(Render(lines, nl)) == Broken(lines, nl) && Terminated(Render(lines, nl))
  {
    if lines != [] {
      LinesOfOne(lines[0], nl);
      RenderIsLines(lines[1..], nl);
      LinesOfConcat(lines[0] + nl, Render(lines[1..], nl));
    }
  }

  /** `str::replace('\n', to)`. */
  function Replace(s: string, to: string): string {
    if s == "" then "" else (if s[0] == '\n' then to else [s[0]]) + Replace(s[1..], to)
  }

  lemma {:induction false} ReplaceAppends(a: string, b: string, to: string)
    ensures Replace(a + b, to) == Replace(a, to) + Replace(b, to)
  {
    if a == "" {
      assert a + b == b;
    } else {
      ReplaceAppends(a[1..], b, to);
      assert (a + b)[1..] == a[1..] + b;
      Assoc(if a[0] == '\n' then to else [a[0]], Replace(a[1..], to), Replace(b, to));
    }
  }

  lemma {:induction false} ReplaceNothing(s: string, to: string)
    requires '\n' !in s
    ensures Replace(s, to) == s
  {
    if s != "" {
      assert forall c :: c in s[1..] ==> c in s;
      ReplaceNothing(s[1..], to);
      assert [s[0]] + s[1..] == s;
    }
  }

  /** Replacing the line breaks of rendered lines renders them with the other line break. */
  lemma {:induction false} ReplaceRenders(lines: seq<string>, to: string)
    requires OneLiners(lines)
    ensures Replace(Render(lines, "\n"), to) == Render(lines, to)
  {
    if lines != [] {
      ReplaceRenders(lines[1..], to);
      ReplaceNothing(lines[0], to);
      ReplaceAppends(lines[0] + "\n", Render(lines[1..], "\n"), to);
      ReplaceAppends(lines[0], "\n", to);
      assert Replace("\n", to) == to + "";
    }
  }

  // ---- Trailing line breaks ----------------------------------------------

  predicate EndsWith(s: string, nl: string) {
    |nl| <= |s| && s[|s| - |nl|..] == nl
  }

  function StripTrailing(s: string, nl: string): string
    requires nl != ""
    decreases |s|
  {
    if EndsWith(s, nl) then StripTrailing(s[..|s| - |nl|], nl) else s
  }
}
