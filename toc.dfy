/**
 * toc.py: the table-of-contents builder. Raw wiki table text is collected,
 * cut into rows at `|-`, and every row becomes one `easylist` entry whose
 * depth is its number of leading `|`. The first marker character seen at a
 * depth fixes that depth's numbering style, from which the
 * `\ListProperties(...)` line is derived.
 */
module Toc {
  import opened Strings
  import opened Reparse

  const NewpageMarker := "---NEWPAGE---"

  /** The banner emitted after a `---NEWPAGE---` row. */
  const Declassified := "\\begin{spacing}{0.7}\n\\begin{center}\n\\begin{scriptsize}\\textbf"
    + "{Declassified} per Executive Order 13526, Section 3.3\\\\NND Project Number: NND 63316."
    + "By: NWD Date: 2011\n\\vspace{2em}\n\\end{scriptsize}\n\\end{center}\n\\end{spacing}\n"

  const EasylistOpen := "\\begin{small}\n\\begin{easylist}\n"
  const EasylistClose := "\\end{easylist}\n\\end{small}"

  // ---------------------------------------------------------------------------
  // Rows and levels
  // ---------------------------------------------------------------------------

  /** `begin`: the text from the first `|` on (`find` gives -1 when there is none, keeping the last character). */
  function FromFirstPipe(text: string): string
  {
    Slice(text, Index(text, "|"), |text|)
  }

  /** `begin`: newlines removed, split at `|-`, an empty first piece dropped. */
  function Lines(text: string): seq<string>
  {
    var pieces := Split(Replace(text, "\n", ""), "|-");
    if |pieces[0]| == 0 then pieces[1..] else pieces
  }

  /**
   * The rows cover the newline-free text: joined with `|-` they give it back,
   * after the `|-` that the dropped empty piece stood before; no row holds `|-`.
   */
  lemma {:induction false} LinesCover(text: string)
    ensures var flat := Replace(text, "\n", "");
            var ls := Lines(text);
            (Join(ls, "|-") == flat || (ls != [] && flat == "|-" + Join(ls, "|-")) || (ls == [] && flat == ""))
            && forall k :: 0 <= k < |ls| ==> !Contains(ls[k], "|-")
  {
    var flat := Replace(text, "\n", "");
    var pieces := Split(flat, "|-");
    JoinSplit(flat, "|-");
    SplitPiecesFree(flat, "|-");
    if |pieces[0]| == 0 && |pieces| > 1 {
      assert Join(pieces, "|-") == pieces[0] + "|-" + Join(pieces[1..], "|-");
    }
    forall k | 0 <= k < |Lines(text)| ensures !Contains(Lines(text)[k], "|-") {
      assert Lines(text)[k] in pieces;
    }
  }

  /** The number of leading `|` characters of a row. */
  function Pipes(line: string): (n: nat)
    ensures n <= |line|
    ensures forall k :: 0 <= k < n ==> line[k] == '|'
    ensures n < |line| ==> line[n] != '|'
  {
    if line != [] && line[0] == '|' then 1 + Pipes(line[1..]) else 0
  }

  /**
   * The `while line[ind] == "|"` loop of `parse`: the level is the number of
   * leading pipes; a row of pipes only runs off its end (None: IndexError).
   */
  method LeadingPipes(line: string) returns (level: Option<nat>)
    ensures level == if Pipes(line) < |line| then Some(Pipes(line)) else None
    ensures level.Some? ==> level.value < |line| && line[level.value] != '|'
                            && forall k :: 0 <= k < level.value ==> line[k] == '|'
  {
    var ind := 0;
    while ind < |line| && line[ind] == '|'
      invariant ind <= |line|
      invariant forall k :: 0 <= k < ind ==> line[k] == '|'
    {
      ind := ind + 1;
    }
    if ind == |line| {
      level := None;
    } else {
      level := Some(ind);
    }
  }

  // ---------------------------------------------------------------------------
  // The row label pattern
  // ---------------------------------------------------------------------------

  /** `[A-Za-z0-9]`. */
  predicate IsAlnum(c: char)
  {
    ('A' <= c <= 'Z') || ('a' <= c <= 'z') || ('0' <= c <= '9')
  }

  /** The length of the run of `[A-Za-z0-9]` at the start of `s`. */
  function AlnumRun(s: string): (n: nat)
    ensures n <= |s|
    ensures forall k :: 0 <= k < n ==> IsAlnum(s[k])
    ensures n < |s| ==> !IsAlnum(s[n])
  {
    if s != [] && IsAlnum(s[0]) then 1 + AlnumRun(s[1..]) else 0
  }

  /**
   * What the optional group `([A-Za-z0-9]{1,4}\.\s?\|)?` consumes: one to four
   * alphanumerics, a dot, at most one whitespace character, a pipe; nothing otherwise.
   */
  function LabelLength(s: string): (n: nat)
    ensures n <= |s|
  {
    var a := AlnumRun(s);
    if 1 <= a <= 4 && a < |s| && s[a] == '.' then
      if a + 2 < |s| && IsSpace(s[a + 1]) && s[a + 2] == '|' then a + 3
      else if a + 1 < |s| && s[a + 1] == '|' then a + 2
      else 0
    else 0
  }

  /** What the optional group `(?:colspan="\d"\|)?` consumes. */
  function ColspanLength(s: string): (n: nat)
    ensures n <= |s|
  {
    if |s| >= 12 && s[..9] == "colspan=\"" && IsDigit(s[9]) && s[10..12] == "\"|" then 12 else 0
  }

  /** Where the `text` group starts: after the optional label and colspan prefixes. */
  function TextStart(s: string): (k: nat)
    ensures k <= |s|
  {
    LabelLength(s) + ColspanLength(s[LabelLength(s)..])
  }

  /** What `.*` matches at the start of `u`: everything up to the first newline. */
  function UpToNewline(u: string): (r: string)
    ensures r <= u && '\n' !in r
    ensures |r| == |u| || u[|r|] == '\n'
  {
    if u == [] || u[0] == '\n' then [] else [u[0]] + UpToNewline(u[1..])
  }

  /**
   * The `text` group of the row pattern. Every part of the pattern before it
   * is optional, so the pattern matches every row and `TOCError` is never raised.
   */
  function LabelText(s: string): string
  {
    UpToNewline(s[TextStart(s)..])
  }

  /** A numbered label such as `IV. |` is stripped, leaving the row's text. */
  lemma {:induction false} LabelStrip(a: string, gap: string, rest: string)
    requires 1 <= |a| <= 4 && forall k :: 0 <= k < |a| ==> IsAlnum(a[k])
    requires gap == "" || (|gap| == 1 && IsSpace(gap[0]))
    requires '\n' !in rest && ColspanLength(rest) == 0
    ensures LabelText(a + "." + gap + "|" + rest) == rest
  {
    var s := a + "." + gap + "|" + rest;
    assert s[|a|] == '.';
    assert AlnumRun(s) == |a|;
    assert s[LabelLength(s)..] == rest;
  }

  /** A row with no dot, not opening with `colspan=`, and no newline is its own text. */
  lemma {:induction false} LabelKeep(s: string)
    requires '.' !in s && '\n' !in s && ColspanLength(s) == 0
    ensures LabelText(s) == s
  {
  }

  // ---------------------------------------------------------------------------
  // Page numbers in page-list mode
  // ---------------------------------------------------------------------------

  /** The length of a match of `[A-Z]-\d{1,3}` (greedy) at `i`, or 0. */
  function PageNumberAt(s: string, i: nat): (n: nat)
    ensures n == 0 || (3 <= n <= 5 && i + n <= |s|)
  {
    if i + 2 < |s| && 'A' <= s[i] <= 'Z' && s[i + 1] == '-' && IsDigit(s[i + 2]) then
      if i + 3 < |s| && IsDigit(s[i + 3]) then
        if i + 4 < |s| && IsDigit(s[i + 4]) then 5 else 4
      else 3
    else 0
  }

  /** `re.sub('(?P<num>[A-Z]-\d{1,3})', '\\hfill \g<num>', s)` from index `i` on. */
  function PageNumbersFrom(s: string, i: nat): string
    requires i <= |s|
    decreases |s| - i
  {
    if i == |s| then []
    else
      var n := PageNumberAt(s, i);
      if n > 0 then "\\hfill " + s[i..i + n] + PageNumbersFrom(s, i + n)
      else [s[i]] + PageNumbersFrom(s, i + 1)
  }

  function PageNumbers(s: string): string
  {
    PageNumbersFrom(s, 0)
  }

  /** Text without a `-` holds no page number and is unchanged. */
  lemma {:induction false} PageNumbersFromIdentity(s: string, i: nat)
    requires i <= |s| && '-' !in s
    ensures PageNumbersFrom(s, i) == s[i..]
    decreases |s| - i
  {
    if i < |s| {
      if i + 1 < |s| {
        assert s[i + 1] in s;
      }
      assert PageNumberAt(s, i) == 0;
      PageNumbersFromIdentity(s, i + 1);
      assert s[i..] == [s[i]] + s[i + 1..];
    }
  }

  lemma {:induction false} PageNumbersIdentity(s: string)
    requires '-' !in s
    ensures PageNumbers(s) == s
  {
    PageNumbersFromIdentity(s, 0);
  }

  /** A page number such as `B-12` is preceded by `\hfill `, taking all of its up to three digits. */
  lemma {:induction false} PageNumberTagged(c: char, ds: string)
    requires 'A' <= c <= 'Z' && 1 <= |ds| <= 3 && forall k :: 0 <= k < |ds| ==> IsDigit(ds[k])
    ensures PageNumbers([c, '-'] + ds) == "\\hfill " + [c, '-'] + ds
  {
    var s := [c, '-'] + ds;
    assert forall k :: 2 <= k < |s| ==> s[k] == ds[k - 2];
    assert PageNumberAt(s, 0) == |s|;
    assert s[0..|s|] == s;
    assert PageNumbersFrom(s, 0) == "\\hfill " + s[0..|s|] + PageNumbersFrom(s, |s|);
  }

  // ---------------------------------------------------------------------------
  // parse, one row at a time
  // ---------------------------------------------------------------------------

  /** The part of `TOC` that `parse` changes row by row. */
  datatype ParseState = ParseState(levels: map<string, char>, latex: string, newpage: bool)

  /** The state after a row, and whether the row raised IndexError there. */
  datatype Parsed = Parsed(state: ParseState, failed: bool)

  /** `"@" * n`. */
  function Bullets(n: nat): (r: string)
    ensures |r| == n && forall k :: 0 <= k < n ==> r[k] == '@'
  {
    seq(n, _ => '@')
  }

  /** A row's text: label stripped, `sub` applied, `{\textbar}` turned into a space. */
  function RowText(rest: string, sub: string -> string): string
  {
    Replace(sub(LabelText(rest)), "{\\textbar}", " ")
  }

  /** The page break and banner that follow an entry when a break is pending. */
  const PageBreak := "\\newpage\n" + Declassified

  /** `latex` after an `easylist` entry and, when one is pending, the page break and banner. */
  function Entry(latex: string, level: nat, text: string, newpage: bool): string
  {
    var line := latex + Bullets(level) + " " + text + "\n";
    if newpage then line + "\\newpage\n" + Declassified else line
  }

  /** `line[:line.find("---NEWPAGE---")]`. */
  function NewpageCut(line: string): string
  {
    Slice(line, 0, Index(line, NewpageMarker))
  }

  /**
   * First-sight binding: the level `n` is bound to `marker` unless it is bound
   * already; no bound level changes.
   */
  function Bind(levels: map<string, char>, n: nat, marker: char): (r: map<string, char>)
    ensures NatStr(n) in r && r.Keys == levels.Keys + {NatStr(n)}
    ensures forall key :: key in levels ==> r[key] == levels[key]
    ensures NatStr(n) !in levels ==> r[NatStr(n)] == marker
  {
    if NatStr(n) in levels then levels else levels[NatStr(n) := marker]
  }

  /** What a row at level `n` with text `text` appends to `latex`. */
  function Emit(levels: map<string, char>, latex: string, n: nat, text: string, newpage: bool, pageList: bool)
    : (r: ParseState)
    ensures r.levels == levels && latex <= r.latex
  {
    if pageList && Contains(text, "\\uline{Page}") then
      ParseState(levels, latex + "\\hfill " + text + "\n", newpage)
    else
      ParseState(levels, Entry(latex, n, if pageList then PageNumbers(text) else text, newpage), false)
  }

  /**
   * With `sub` being `Reparser.sub`, the text of a row holds no `|`: `sub`
   * escapes every bar and the `{\textbar}` replacement puts back only spaces.
   */
  lemma {:induction false} RowTextNoBar(rest: string)
    ensures '|' !in RowText(rest, Sub)
  {
    var t := Sub(LabelText(rest));
    SubEscaped(LabelText(rest));
    if '|' in Replace(t, "{\\textbar}", " ") {
      ReplaceChars(t, "{\\textbar}", " ", '|');
    }
  }

  /** What a row comes to before it touches the builder's state. */
  datatype Shape =
    | Blank                                                 // an empty row is skipped
    | Broken(cut: bool)                                     // nothing but pipes: `line[ind]` raises IndexError
    | Row(cut: bool, level: nat, marker: char, text: string)

  /**
   * A non-empty row is cut at `---NEWPAGE---`; its level is its number of
   * leading pipes and its marker the character after them.
   */
  function RowShape(line: string, sub: string -> string): (sh: Shape)
    ensures sh.Blank? <==> line == []
    ensures !sh.Blank? ==> sh.cut == Contains(line, NewpageMarker)
    ensures sh.Row? ==> sh.marker != '|'
  {
    if line == [] then Blank
    else
      var cut := Contains(line, NewpageMarker);
      var l := if cut then NewpageCut(line) else line;
      var n := Pipes(l);
      if n == |l| then Broken(cut) else Row(cut, n, l[n], RowText(l[n..], sub))
  }

  /** The effect of a row on the state; a broken row only raises the page-break flag its cut set. */
  function Apply(st: ParseState, sh: Shape, pageList: bool): Parsed
  {
    match sh
    case Blank => Parsed(st, false)
    case Broken(cut) => Parsed(st.(newpage := st.newpage || cut), true)
    case Row(cut, n, marker, text) =>
      Parsed(Emit(Bind(st.levels, n, marker), st.latex, n, text, st.newpage || cut, pageList), false)
  }

  /** The body of the `for line in self.lines` loop. */
  function RowStep(st: ParseState, line: string, pageList: bool, sub: string -> string): Parsed
  {
    Apply(st, RowShape(line, sub), pageList)
  }

  /** The rows from index `i` on processed in order, stopping at the first one that raises. */
  function ParseFrom(lines: seq<string>, i: nat, st: ParseState, pageList: bool, sub: string -> string): Parsed
    requires i <= |lines|
    decreases |lines| - i
  {
    if i == |lines| then Parsed(st, false)
    else
      var p := RowStep(st, lines[i], pageList, sub);
      if p.failed then p else ParseFrom(lines, i + 1, p.state, pageList, sub)
  }

  /** The row is cut right before its first `---NEWPAGE---`, and what is kept holds no marker. */
  lemma {:induction false} NewpageCutFirst(line: string)
    requires Contains(line, NewpageMarker)
    ensures var c := NewpageCut(line);
            c == line[..|c|] && OccursAt(line, NewpageMarker, |c|) && !Contains(c, NewpageMarker)
  {
    var i := Index(line, NewpageMarker);
    var c := NewpageCut(line);
    assert i != -1;
    assert c == line[..i];
    forall j | OccursAt(c, NewpageMarker, j) ensures false {
      assert line[j..j + |NewpageMarker|] == c[j..j + |NewpageMarker|];
      assert OccursAt(line, NewpageMarker, j) && j < i;
    }
    ContainsIff(c, NewpageMarker);
  }

  /** `st2` keeps every level bound in `st` and extends its output. */
  predicate Extends(st: ParseState, st2: ParseState)
  {
    (forall key :: key in st.levels ==> key in st2.levels && st2.levels[key] == st.levels[key])
    && st.latex <= st2.latex
  }

  /**
   * A row keeps the bound levels and only appends to the output; a row that
   * does not raise binds its own level, to its marker when it was unbound.
   */
  lemma {:induction false} RowBinds(st: ParseState, line: string, pageList: bool, sub: string -> string)
    ensures Extends(st, RowStep(st, line, pageList, sub).state)
    ensures RowShape(line, sub).Row? ==>
              var sh := RowShape(line, sub);
              NatStr(sh.level) in RowStep(st, line, pageList, sub).state.levels
              && (NatStr(sh.level) !in st.levels ==> RowStep(st, line, pageList, sub).state.levels[NatStr(sh.level)] == sh.marker)
    ensures RowStep(st, line, pageList, sub).failed <==> RowShape(line, sub).Broken?
  {
  }

  /** The level of a row is its number of leading pipes, all of them before its marker. */
  lemma {:induction false} RowLevel(line: string, sub: string -> string)
    requires RowShape(line, sub).Row? && !Contains(line, NewpageMarker)
    ensures var sh := RowShape(line, sub);
            sh.level < |line| && line[sh.level] == sh.marker
            && forall k :: 0 <= k < sh.level ==> line[k] == '|'
  {
  }

  /** Over a whole run of rows, bound levels never change and `latex` is only appended to. */
  lemma {:induction false} ParseKeeps(lines: seq<string>, i: nat, st: ParseState, pageList: bool, sub: string -> string)
    requires i <= |lines|
    ensures Extends(st, ParseFrom(lines, i, st, pageList, sub).state)
    decreases |lines| - i
  {
    if i < |lines| {
      var p := RowStep(st, lines[i], pageList, sub);
      RowBinds(st, lines[i], pageList, sub);
      if !p.failed {
        ParseKeeps(lines, i + 1, p.state, pageList, sub);
      }
    }
  }

  /**
   * Outside page-list mode a row without a page break and with a non-pipe
   * character becomes `"@" * level + " " + text + "\n"`, followed by the break
   * and banner left pending by an earlier row.
   */
  lemma {:induction false} PlainRow(st: ParseState, line: string, sub: string -> string)
    requires !Contains(line, NewpageMarker) && Pipes(line) < |line|
    ensures !RowStep(st, line, false, sub).failed && !RowStep(st, line, false, sub).state.newpage
    ensures RowStep(st, line, false, sub).state.latex
            == Entry(st.latex, Pipes(line), RowText(line[Pipes(line)..], sub), st.newpage)
  {
  }

  /** The entry of a row with a pending page break ends with the break and the banner. */
  lemma {:induction false} EntryBreak(latex: string, n: nat, text: string)
    ensures EndsWith(Entry(latex, n, text, true), PageBreak)
  {
    var line := latex + Bullets(n) + " " + text + "\n";
    var e := Entry(latex, n, text, true);
    assert e == line + "\\newpage\n" + Declassified;
    assert e[|line|..] == PageBreak;
  }

  /**
   * A row holding `---NEWPAGE---` either raises, or leaves the break pending
   * (a `\uline{Page}` row in page-list mode), or ends the output with the
   * break and the banner and clears the flag.
   */
  lemma {:induction false} NewpageRow(st: ParseState, line: string, pageList: bool, sub: string -> string)
    requires Contains(line, NewpageMarker)
    ensures RowStep(st, line, pageList, sub).failed || RowStep(st, line, pageList, sub).state.newpage
            || EndsWith(RowStep(st, line, pageList, sub).state.latex, PageBreak)
  {
    var sh := RowShape(line, sub);
    if sh.Row? && !(pageList && Contains(sh.text, "\\uline{Page}")) {
      EntryBreak(st.latex, sh.level, if pageList then PageNumbers(sh.text) else sh.text);
    }
  }

  /** `t` ends with `suffix`. */
  predicate EndsWith(t: string, suffix: string)
  {
    |suffix| <= |t| && t[|t| - |suffix|..] == suffix
  }

  // ---------------------------------------------------------------------------
  // make_props
  // ---------------------------------------------------------------------------

  /** Python's `<=` on strings: code-point lexicographic order. */
  predicate StrLe(a: string, b: string)
  {
    if a == [] then true
    else if b == [] then false
    else if a[0] != b[0] then a[0] < b[0]
    else StrLe(a[1..], b[1..])
  }

  lemma {:induction false} StrLeTotal(a: string, b: string)
    ensures StrLe(a, b) || StrLe(b, a)
  {
    if a != [] && b != [] && a[0] == b[0] {
      StrLeTotal(a[1..], b[1..]);
    }
  }

  lemma {:induction false} StrLeTrans(a: string, b: string, c: string)
    requires StrLe(a, b) && StrLe(b, c)
    ensures StrLe(a, c)
  {
    if a != [] && b != [] && c != [] && a[0] == b[0] && b[0] == c[0] {
      StrLeTrans(a[1..], b[1..], c[1..]);
    }
  }

  lemma {:induction false} StrLeAntisymmetric(a: string, b: string)
    requires StrLe(a, b) && StrLe(b, a)
    ensures a == b
  {
    if a != [] && b != [] {
      StrLeAntisymmetric(a[1..], b[1..]);
      assert a == [a[0]] + a[1..] && b == [b[0]] + b[1..];
    }
  }

  lemma {:induction false} StrLeReflexive(a: string)
    ensures StrLe(a, a)
  {
    if a != [] {
      StrLeReflexive(a[1..]);
    }
  }

  /** `sorted(list(keys))[-1]`: the greatest key as a string. */
  method PageKey(keys: set<string>) returns (m: string)
    requires keys != {}
    ensures m in keys && forall j :: j in keys ==> StrLe(j, m)
  {
    m :| m in keys;
    StrLeReflexive(m);
    var rest := keys - {m};
    while rest != {}
      invariant rest <= keys && m in keys
      invariant forall j :: j in keys && j !in rest ==> StrLe(j, m)
      decreases |rest|
    {
      var k :| k in rest;
      if StrLe(m, k) {
        forall j | j in keys && j !in rest ensures StrLe(j, k) {
          StrLeTrans(j, m, k);
        }
        m := k;
      } else {
        StrLeTotal(m, k);
      }
      StrLeReflexive(k);
      rest := rest - {k};
    }
  }

  /**
   * The levels `make_props` writes out, given the levels `parse` left: in
   * page-list mode the greatest key in string order is gone; otherwise all stay.
   */
  ghost predicate PropsLevels(pageList: bool, before: map<string, char>, after: map<string, char>)
  {
    if pageList && before != map[] then
      exists m :: m in before && (forall j :: j in before ==> StrLe(j, m)) && after == before - {m}
    else
      after == before
  }

  /** The greatest key is unique, so the level that `make_props` deletes is determined. */
  lemma {:induction false} PageKeyUnique(keys: set<string>, m1: string, m2: string)
    requires m1 in keys && forall j :: j in keys ==> StrLe(j, m1)
    requires m2 in keys && forall j :: j in keys ==> StrLe(j, m2)
    ensures m1 == m2
  {
    StrLeAntisymmetric(m1, m2);
  }

  /** The `easylist` numbering style of a marker: `I` Roman, `A` capital letters, `a` small letters. */
  function Style(c: char): Option<char>
  {
    if c == 'I' then Some('R') else if c == 'A' then Some('L') else if c == 'a' then Some('l') else None
  }

  /** The markers `make_props` recognises (`1` only hides). */
  predicate Recognised(c: char)
  {
    c == 'I' || c == 'A' || c == '1' || c == 'a'
  }

  /** `Numbers<k>=<style>`: level `k` is numbered in the given style. */
  function NumbersItem(k: nat, style: char): string
  {
    "Numbers" + NatStr(k) + "=" + [style]
  }

  /** `Hide<k>=<m>`: level `k` hides the numbers of the `m` levels above it. */
  function HideItem(k: nat, m: nat): string
  {
    "Hide" + NatStr(k) + "=" + NatStr(m)
  }

  /**
   * The properties of level `k` bound to marker `c`: a numbering style for
   * `I`, `A` and `a`, and below the first level a hiding depth, one less than
   * the level for a recognised marker and the level itself otherwise.
   */
  function LevelItems(k: nat, c: char): seq<string>
  {
    (if Style(c).Some? then [NumbersItem(k, Style(c).value)] else [])
    + (if k > 1 then [HideItem(k, if Recognised(c) then k - 1 else k)] else [])
  }

  /** The properties of the bound levels among 1..k. */
  function ItemsUpTo(levels: map<string, char>, k: nat): seq<string>
  {
    if k == 0 then []
    else ItemsUpTo(levels, k - 1) + (if NatStr(k) in levels then LevelItems(k, levels[NatStr(k)]) else [])
  }

  /** The fixed opening of the properties line, up to its last fixed item. */
  const ListOpen := "\\ListProperties(Space=-2.3mm,Space*=-2.3mm,Hang=true,Progressive*=2em"

  /** Each item preceded by a comma. */
  function Separated(xs: seq<string>): string
  {
    if xs == [] then "" else "," + xs[0] + Separated(xs[1..])
  }

  /** The `\ListProperties(...)` line: the fixed items, then the level items, separated by commas. */
  function PropsText(levels: map<string, char>): string
  {
    ListOpen + Separated(ItemsUpTo(levels, |levels|)) + ")\n"
  }

  /** Each item followed by a comma, as `make_props` writes them. */
  function Terminated(xs: seq<string>): string
  {
    if xs == [] then "" else xs[0] + "," + Terminated(xs[1..])
  }

  lemma {:induction false} TerminatedConcat(xs: seq<string>, ys: seq<string>)
    ensures Terminated(xs + ys) == Terminated(xs) + Terminated(ys)
    decreases |xs|
  {
    if xs != [] {
      assert (xs + ys)[0] == xs[0];
      assert (xs + ys)[1..] == xs[1..] + ys;
      TerminatedConcat(xs[1..], ys);
      calc {
        Terminated(xs + ys);
        xs[0] + "," + Terminated(xs[1..] + ys);
        xs[0] + "," + (Terminated(xs[1..]) + Terminated(ys));
        (xs[0] + "," + Terminated(xs[1..])) + Terminated(ys);
        Terminated(xs) + Terminated(ys);
      }
    } else {
      assert xs + ys == ys;
    }
  }

  /** The text of a level's items: its numbering item, then its hiding item, each followed by a comma. */
  lemma {:induction false} LevelItemsText(k: nat, c: char)
    ensures Terminated(LevelItems(k, c))
            == (if Style(c).Some? then NumbersItem(k, Style(c).value) + "," else "")
               + (if k > 1 then HideItem(k, if Recognised(c) then k - 1 else k) + "," else "")
  {
    var hiding := if k > 1 then [HideItem(k, if Recognised(c) then k - 1 else k)] else [];
    assert Terminated(hiding) == if k > 1 then HideItem(k, if Recognised(c) then k - 1 else k) + "," else "" by {
      if k > 1 {
        assert hiding[1..] == [];
      }
    }
    if Style(c).Some? {
      var items := [NumbersItem(k, Style(c).value)] + hiding;
      assert LevelItems(k, c) == items;
      assert items[1..] == hiding;
    } else {
      assert LevelItems(k, c) == hiding;
    }
  }

  /**
   * Writing every item with a trailing comma after the comma that ends the
   * fixed part is writing every item with a leading comma, plus one last comma:
   * so cutting the last character leaves the items comma-separated.
   */
  lemma {:induction false} CommaShift(xs: seq<string>)
    ensures "," + Terminated(xs) == Separated(xs) + ","
    decreases |xs|
  {
    if xs != [] {
      CommaShift(xs[1..]);
      calc {
        "," + Terminated(xs);
        "," + (xs[0] + "," + Terminated(xs[1..]));
        "," + xs[0] + ("," + Terminated(xs[1..]));
        "," + xs[0] + (Separated(xs[1..]) + ",");
        Separated(xs) + ",";
      }
    }
  }

  /** An item that does not end with a comma. */
  predicate Closed(x: string)
  {
    x != [] && x[|x| - 1] != ','
  }

  lemma {:induction false} LevelItemsClosed(k: nat, c: char)
    ensures forall i :: 0 <= i < |LevelItems(k, c)| ==> Closed(LevelItems(k, c)[i])
  {
    if k > 1 {
      var d := NatStr(if Recognised(c) then k - 1 else k);
      var h := HideItem(k, if Recognised(c) then k - 1 else k);
      assert h[|h| - 1] == d[|d| - 1];
    }
  }

  lemma {:induction false} ItemsClosed(levels: map<string, char>, k: nat)
    ensures forall i :: 0 <= i < |ItemsUpTo(levels, k)| ==> Closed(ItemsUpTo(levels, k)[i])
  {
    if k > 0 {
      ItemsClosed(levels, k - 1);
      if NatStr(k) in levels {
        LevelItemsClosed(k, levels[NatStr(k)]);
      }
    }
  }

  lemma {:induction false} SeparatedClosed(xs: seq<string>)
    requires forall i :: 0 <= i < |xs| ==> Closed(xs[i])
    ensures Separated(xs) == [] || Closed(Separated(xs))
    decreases |xs|
  {
    if xs != [] {
      SeparatedClosed(xs[1..]);
    }
  }

  /**
   * The properties line is closed by `)` and a newline with no comma before
   * the `)`: the trailing comma `make_props` writes is always cut.
   */
  lemma {:induction false} PropsClosed(levels: map<string, char>)
    ensures var p := PropsText(levels);
            |p| >= 3 && p[|p| - 2..] == ")\n" && p[|p| - 3] != ','
  {
    var items := ItemsUpTo(levels, |levels|);
    ItemsClosed(levels, |levels|);
    SeparatedClosed(items);
    var body := ListOpen + Separated(items);
    assert body[|body| - 1] != ',' by {
      if Separated(items) == [] {
        assert body == ListOpen;
        assert ListOpen[|ListOpen| - 1] == 'm';
      }
    }
  }

  // ---------------------------------------------------------------------------
  // The builder
  // ---------------------------------------------------------------------------

  class TOC {
    /** `self.reparser.sub`: the row text rewrite, held as a value so that row proofs need not unfold it. */
    const sub: string -> string
    var text: string
    var lines: seq<string>
    var levels: map<string, char>
    var props: string
    var latex: string
    var isNewpage: bool
    var isPageList: bool

    constructor ()
      ensures text == "" && lines == [] && levels == map[] && props == "" && latex == ""
      ensures !isNewpage && !isPageList
      ensures sub == Sub
    {
      sub := Sub;
      text := "";
      lines := [];
      levels := map[];
      props := "";
      latex := "";
      isNewpage := false;
      isPageList := false;
    }

    function State(): ParseState
      reads this
    {
      ParseState(levels, latex, isNewpage)
    }

    /** TOC.append: only concatenates. */
    method Append(t: string)
      modifies this`text
      ensures text == old(text) + t
    {
      text := text + t;
    }

    /** TOC.end: the props and entries inside the `small` and `easylist` environments. */
    function End(): (r: string)
      reads this
      ensures |r| == |EasylistOpen| + |props| + |latex| + |EasylistClose|
      ensures r[..|EasylistOpen|] == EasylistOpen && r[|r| - |EasylistClose|..] == EasylistClose
      ensures r[|EasylistOpen|..|r| - |EasylistClose|] == props + latex
    {
      EasylistOpen + props + latex + EasylistClose
    }

    /** TOC.newpage: raise the flag and keep the row up to the marker. */
    method Newpage(line: string) returns (kept: string)
      modifies this`isNewpage
      ensures isNewpage && kept == NewpageCut(line)
    {
      isNewpage := true;
      var ind := Index(line, NewpageMarker);
      kept := Slice(line, 0, ind);
    }

    /**
     * The reading half of a pass of the loop in TOC.parse: the page-break cut
     * (raising the flag), the leading pipes, the label pattern, `sub` and the
     * `{\textbar}` replacement.
     */
    method ReadRow(line: string) returns (sh: Shape)
      modifies this`isNewpage
      ensures sh == RowShape(line, sub)
      ensures isNewpage == (old(isNewpage) || Contains(line, NewpageMarker))
    {
      if |line| == 0 {
        return Blank;
      }
      var l := line;
      var cut := Contains(l, NewpageMarker);
      if cut {
        l := Newpage(l);
      }
      ghost var kept := l;
      assert kept == if cut then NewpageCut(line) else line;
      var level := LeadingPipes(l);
      if level.None? {
        return Broken(cut);
      }
      var ind := level.value;
      var marker := l[ind];
      l := l[ind..];
      l := LabelText(l);
      l := sub(l);
      l := Replace(l, "{\\textbar}", " ");
      assert ind == Pipes(kept) && l == RowText(kept[ind..], sub);
      sh := Row(cut, ind, marker, l);
    }

    /**
     * The writing half of a pass: the level is bound on first sight, then the
     * entry, or the `\hfill` line of a page row, is written.
     */
    method AddRow(ind: nat, marker: char, l: string)
      modifies this`levels, this`latex, this`isNewpage
      ensures State() == Emit(Bind(old(levels), ind, marker), old(latex), ind, l, old(isNewpage), isPageList)
    {
      if NatStr(ind) !in levels {
        levels := levels[NatStr(ind) := marker];
      }
      if isPageList {
        if Contains(l, "\\uline{Page}") {
          latex := latex + "\\hfill " + l + "\n";
        } else {
          var shown := PageNumbers(l);
          latex := latex + Bullets(ind) + " " + shown + "\n";
          if isNewpage {
            latex := latex + "\\newpage\n";
            latex := latex + Declassified;
            isNewpage := false;
          }
        }
      } else {
        latex := latex + Bullets(ind) + " " + l + "\n";
        if isNewpage {
          latex := latex + "\\newpage\n";
          latex := latex + Declassified;
          isNewpage := false;
        }
      }
    }

    /** One pass of the loop in TOC.parse: read the row, bind its level on first sight, write it. */
    method ParseRow(line: string) returns (r: Outcome<string>)
      modifies this`levels, this`latex, this`isNewpage
      ensures State() == RowStep(old(State()), line, isPageList, sub).state
      ensures r.Fail? <==> RowStep(old(State()), line, isPageList, sub).failed
      ensures r.Fail? ==> r.error == "IndexError"
    {
      ghost var st := State();
      var sh := ReadRow(line);
      ghost var step := Apply(st, sh, isPageList);
      assert step == RowStep(st, line, isPageList, sub);
      match sh
      case Blank =>
        assert State() == st == step.state;
        r := Pass;
      case Broken(cut) =>
        assert State() == st.(newpage := st.newpage || cut) == step.state;
        r := Fail("IndexError");
      case Row(cut, ind, marker, l) =>
        AddRow(ind, marker, l);
        assert State() == step.state == Emit(Bind(st.levels, ind, marker), st.latex, ind, l, st.newpage || cut, isPageList);
        r := Pass;
    }

    /**
     * TOC.parse: page-list mode when the first row mentions `Page`, then every
     * row in order until one raises; with no rows at all `lines[0]` raises.
     */
    method Parse() returns (r: Outcome<string>)
      modifies this`levels, this`latex, this`isNewpage, this`isPageList
      ensures lines == [] ==> r == Fail("IndexError") && State() == old(State()) && isPageList == old(isPageList)
      ensures lines != [] ==>
                isPageList == (old(isPageList) || Contains(lines[0], "Page"))
                && State() == ParseFrom(lines, 0, old(State()), isPageList, sub).state
                && (r.Fail? <==> ParseFrom(lines, 0, old(State()), isPageList, sub).failed)
      ensures r.Fail? ==> r.error == "IndexError"
    {
      if lines == [] {
        return Fail("IndexError");
      }
      if Contains(lines[0], "Page") {
        isPageList := true;
      }
      ghost var start := State();
      assert start == old(State());
      ghost var pageList := isPageList;
      ghost var whole := ParseFrom(lines, 0, start, pageList, sub);
      var i := 0;
      r := Pass;
      while i < |lines|
        invariant 0 <= i <= |lines| && r == Pass && isPageList == pageList
        invariant ParseFrom(lines, i, State(), pageList, sub) == whole
      {
        ghost var st := State();
        ghost var step := RowStep(st, lines[i], pageList, sub);
        assert ParseFrom(lines, i, st, pageList, sub) == if step.failed then step else ParseFrom(lines, i + 1, step.state, pageList, sub);
        r := ParseRow(lines[i]);
        assert State() == step.state && (r.Fail? <==> step.failed);
        if r.Fail? {
          assert whole == step;
          return;
        }
        i := i + 1;
      }
      assert whole == Parsed(State(), false);
    }

    /**
     * TOC.make_props: in page-list mode the greatest level key is deleted
     * first; then the properties of levels 1..len(levels) are written, and the
     * trailing comma becomes `)` and a newline. A missing level 1 leaves `val`
     * unbound (UnboundLocalError); other missing levels are skipped.
     */
    method MakeProps() returns (r: Outcome<string>)
      modifies this`levels, this`props
      ensures isPageList && old(levels) == map[] ==> r == Fail("IndexError") && levels == old(levels) && props == old(props)
      ensures isPageList && old(levels) != map[] ==>
                exists m :: m in old(levels) && (forall j :: j in old(levels) ==> StrLe(j, m))
                            && levels == old(levels) - {m}
      ensures !isPageList ==> levels == old(levels)
      ensures r == Fail("UnboundLocalError") <==> |levels| >= 1 && NatStr(1) !in levels
      ensures r.Pass? ==> props == old(props) + PropsText(levels)
      ensures r == Fail("IndexError") <==> isPageList && old(levels) == map[]
      ensures r == Pass || r == Fail("IndexError") || r == Fail("UnboundLocalError")
    {
      if isPageList {
        r := DropPageKey();
        if r.Fail? {
          return;
        }
      }
      r := WriteProps();
    }

    /** The page-list part of `make_props`: the greatest key in string order is deleted; with no key `[-1]` raises. */
    method DropPageKey() returns (r: Outcome<string>)
      modifies this`levels
      ensures old(levels) == map[] ==> r == Fail("IndexError") && levels == old(levels)
      ensures old(levels) != map[] ==>
                r == Pass
                && exists m :: m in old(levels) && (forall j :: j in old(levels) ==> StrLe(j, m))
                               && levels == old(levels) - {m}
    {
      if levels == map[] {
        return Fail("IndexError");
      }
      var pageKey := PageKey(levels.Keys);
      levels := levels - {pageKey};
      r := Pass;
    }

    /**
     * The writing part of `make_props`: the fixed opening, then the items of
     * levels 1..len(levels) each followed by a comma, then the last comma is
     * replaced by `)` and a newline.
     */
    method WriteProps() returns (r: Outcome<string>)
      modifies this`props
      ensures r == Fail("UnboundLocalError") <==> |levels| >= 1 && NatStr(1) !in levels
      ensures r.Pass? ==> props == old(props) + PropsText(levels)
      ensures r == Pass || r == Fail("UnboundLocalError")
    {
      ghost var before := props;
      ghost var open := before + ListOpen;
      props := props + (ListOpen + ",");
      AppendAssoc(before, ListOpen, ",");
      var numLevels := |levels|;
      for level := 1 to numLevels + 1
        invariant props == open + "," + Terminated(ItemsUpTo(levels, level - 1))
        invariant level > 1 ==> NatStr(1) in levels
      {
        if NatStr(level) !in levels {
          if level == 1 {
            return Fail("UnboundLocalError");
          }
          assert ItemsUpTo(levels, level) == ItemsUpTo(levels, level - 1) + [];
          assert ItemsUpTo(levels, level) == ItemsUpTo(levels, level - 1);
        } else {
          var val := levels[NatStr(level)];
          ghost var done := ItemsUpTo(levels, level - 1);
          WriteLevel(level, val);
          assert ItemsUpTo(levels, level) == done + LevelItems(level, val);
          TerminatedConcat(done, LevelItems(level, val));
          AppendAssoc(open + ",", Terminated(done), Terminated(LevelItems(level, val)));
        }
      }
      ghost var items := ItemsUpTo(levels, numLevels);
      CommaShift(items);
      AppendAssoc(open, ",", Terminated(items));
      AppendAssoc(open, Separated(items), ",");
      assert props[..|props| - 1] == open + Separated(items);
      props := props[..|props| - 1] + ")\n";
      AppendAssoc(before, ListOpen, Separated(items));
      AppendAssoc(before, ListOpen + Separated(items), ")\n");
      r := Pass;
    }

    /** One level's branch of the `if` chain in `make_props`: its items, each followed by a comma. */
    method WriteLevel(level: nat, val: char)
      requires level >= 1
      modifies this`props
      ensures props == old(props) + Terminated(LevelItems(level, val))
    {
      ghost var start := props;
      ghost var num := if Style(val).Some? then NumbersItem(level, Style(val).value) + "," else "";
      ghost var hid := if level > 1 then HideItem(level, if Recognised(val) then level - 1 else level) + "," else "";
      if val == 'I' {
        props := props + (NumbersItem(level, 'R') + ",");
        if level > 1 {
          props := props + (HideItem(level, level - 1) + ",");
        }
        assert props == start + num + hid;
      } else if val == 'A' {
        props := props + (NumbersItem(level, 'L') + ",");
        if level > 1 {
          props := props + (HideItem(level, level - 1) + ",");
        }
        assert props == start + num + hid;
      } else if val == '1' {
        if level > 1 {
          props := props + (HideItem(level, level - 1) + ",");
        }
        assert props == start + num + hid;
      } else if val == 'a' {
        props := props + (NumbersItem(level, 'l') + ",");
        if level > 1 {
          props := props + (HideItem(level, level - 1) + ",");
        }
        assert props == start + num + hid;
      } else {
        if level > 1 {
          props := props + (HideItem(level, level) + ",");
        }
        assert props == start + num + hid;
      }
      LevelItemsText(level, val);
      AppendAssoc(start, num, hid);
    }

    /**
     * TOC.begin: rows from the text, then parse, make_props and end. The text
     * is returned exactly when neither `parse` nor `make_props` raises.
     */
    method Begin() returns (r: Result<string, string>)
      modifies this
      ensures text == FromFirstPipe(old(text)) && lines == Lines(text)
      ensures lines == [] ==> r == Err("IndexError") && State() == old(State()) && props == old(props)
      ensures lines != [] ==> isPageList == (old(isPageList) || Contains(lines[0], "Page"))
      ensures var parsed := ParseFrom(lines, 0, old(State()), isPageList, sub);
              lines != [] && parsed.failed ==>
                r == Err("IndexError") && State() == parsed.state && props == old(props)
      ensures var parsed := ParseFrom(lines, 0, old(State()), isPageList, sub);
              lines != [] && !parsed.failed ==>
                latex == parsed.state.latex && isNewpage == parsed.state.newpage
                && PropsLevels(isPageList, parsed.state.levels, levels)
                && (r == Err("IndexError") <==> isPageList && parsed.state.levels == map[])
                && (r == Err("UnboundLocalError") <==> |levels| >= 1 && NatStr(1) !in levels)
                && (r.Ok? <==> !(isPageList && parsed.state.levels == map[]) && !(|levels| >= 1 && NatStr(1) !in levels))
                && (r.Ok? ==> props == old(props) + PropsText(levels) && r.value == End())
      ensures r.Err? ==> r.error == "IndexError" || r.error == "UnboundLocalError"
    {
      ghost var st := State();
      ghost var props0 := props;
      var ind := Index(text, "|");
      text := Slice(text, ind, |text|);
      lines := Lines(text);
      assert text == FromFirstPipe(old(text)) && lines == Lines(text);
      assert State() == st;
      var p := Parse();
      if p.Fail? {
        return Err(p.error);
      }
      ghost var parsed := ParseFrom(lines, 0, st, isPageList, sub);
      assert !parsed.failed && State() == parsed.state;
      r := Finish();
      assert st == old(State());
    }

    /** The end of TOC.begin: make_props, then end, unless make_props raises. */
    method Finish() returns (r: Result<string, string>)
      modifies this`levels, this`props
      ensures PropsLevels(isPageList, old(levels), levels)
      ensures r == Err("IndexError") <==> isPageList && old(levels) == map[]
      ensures r == Err("UnboundLocalError") <==> |levels| >= 1 && NatStr(1) !in levels
      ensures r.Ok? <==> !(isPageList && old(levels) == map[]) && !(|levels| >= 1 && NatStr(1) !in levels)
      ensures r.Ok? ==> props == old(props) + PropsText(levels) && r.value == End()
      ensures r.Err? ==> r.error == "IndexError" || r.error == "UnboundLocalError"
    {
      var m := MakeProps();
      assert PropsLevels(isPageList, old(levels), levels);
      if m.Fail? {
        return Err(m.error);
      }
      r := Ok(End());
    }
  }
}
