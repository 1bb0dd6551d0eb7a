/**
 * reparse.py: the `Reparser` that rewrites the wikitext inside templates the
 * tokenizer hands over whole. `sub` applies the common template rewrites
 * (regular-expression substitutions, then plain character escapes), `left`
 * handles an offset-indented line, `running_header` turns a `{{rh}}` template
 * into a LaTeX `\hfline`, and `traverse` checks that `{{` and `}}` pair up.
 */
module Reparse {
  import opened Strings
  import opened Util

  // ---------------------------------------------------------------------------
  // The regular-expression machinery `sub` relies on
  // ---------------------------------------------------------------------------

  /** Python's `\s` on `str` patterns: the characters for which `str.isspace()` holds. */
  predicate IsSpace(c: char)
  {
    c == ' ' || ('\t' <= c <= '\r') || ('\U{1C}' <= c <= '\U{1F}') || c == '\U{85}' || c == '\U{A0}'
    || c == '\U{1680}' || ('\U{2000}' <= c <= '\U{200A}') || c == '\U{2028}' || c == '\U{2029}'
    || c == '\U{202F}' || c == '\U{205F}' || c == '\U{3000}'
  }

  /** `\d`, restricted to the ASCII digits. */
  predicate IsDigit(c: char)
  {
    '0' <= c <= '9'
  }

  /** `s` has no occurrence of `sub` anywhere. */
  ghost predicate Free(s: string, sub: string)
  {
    forall j :: !OccursAt(s, sub, j)
  }

  /**
   * A lazy `.*?` starting at `k` followed by the literal `close`: the first
   * index at which `close` occurs, provided no newline (which `.` does not
   * match) lies before it.
   */
  function LazyUntil(s: string, k: nat, close: string): (r: Option<nat>)
    requires k <= |s|
    ensures r.Some? ==> k <= r.value && OccursAt(s, close, r.value) && '\n' !in s[k..r.value]
    ensures r.Some? ==> forall j :: k <= j < r.value ==> !OccursAt(s, close, j)
    ensures r.None? ==> forall j :: k <= j <= |s| && '\n' !in s[k..j] ==> !OccursAt(s, close, j)
    decreases |s| - k
  {
    if OccursAt(s, close, k) then Some(k)
    else if k == |s| || s[k] == '\n' then None
    else
      var r := LazyUntil(s, k + 1, close);
      assert r.Some? ==> s[k..r.value] == [s[k]] + s[k + 1..r.value];
      assert forall j :: k + 1 <= j <= |s| ==> s[k..j] == [s[k]] + s[k + 1..j];
      r
  }

  /** The lazy run stops exactly at the first newline-free occurrence of the closing literal. */
  lemma {:induction false} LazyUntilAt(s: string, k: nat, close: string, q: nat)
    requires k <= q <= |s| && OccursAt(s, close, q) && '\n' !in s[k..q]
    requires forall j :: k <= j < q ==> !OccursAt(s, close, j)
    ensures LazyUntil(s, k, close) == Some(q)
  {
  }

  /** A lazy run over a body free of newlines and of the closing literal's first character ends right after that body. */
  lemma {:induction false} LazyOver(s: string, k: nat, body: string, close: string)
    requires |close| > 0 && k + |body| <= |s| && s[k..k + |body|] == body
    requires '\n' !in body && close[0] !in body && OccursAt(s, close, k + |body|)
    ensures LazyUntil(s, k, close) == Some(k + |body|)
  {
    forall j | k <= j < k + |body| ensures !OccursAt(s, close, j) {
      assert s[j] == body[j - k];
    }
    LazyUntilAt(s, k, close, k + |body|);
  }

  /** With no occurrence of the closing literal from `k` on, the lazy run fails. */
  lemma {:induction false} LazyUntilNone(s: string, k: nat, close: string)
    requires k <= |s| && forall j :: k <= j <= |s| ==> !OccursAt(s, close, j)
    ensures LazyUntil(s, k, close) == None
    decreases |s| - k
  {
    if k < |s| && s[k] != '\n' {
      LazyUntilNone(s, k + 1, close);
    }
  }

  /** The patterns `sub` substitutes with `re.sub`. */
  datatype Template =
    | Wrap(opening: string, closing: string, before: string, after: string)
      // `opening(?P<text>.*?)closing` rewritten to `before\g<text>after`
    | Link       // `[[]{2}(?:(?:.*?)\|)?(?P<link>.*?)[]]{2}` rewritten to `\g<link>`
    | LineBreak  // `<br\s?/?>` rewritten to a LaTeX line break
    | PopupNote  // `[{]{2}popup\snote\|(.*?)\|(?P<text>.*?)[}]{2}` rewritten to `\g<text>`

  const Uline := Wrap("{{u|", "}}", "\\uline{", "}")
  const Larger := Wrap("{{larger|", "}}", "\\begin{large}", "\\end{large}")
  const XSmaller := Wrap("{{x-smaller|", "}}", "\\begin{footnotesize}", "\\end{footnotesize}")
  const XLarger := Wrap("{{x-larger|", "}}", "\\begin{Large}", "\\end{Large}")
  const Bold := Wrap("'''", "'''", "\\textbf{", "}")

  /** The literal text every match of the pattern starts with. */
  function Opener(t: Template): string
  {
    match t
    case Wrap(opening, _, _, _) => opening
    case Link => "[["
    case LineBreak => "<br"
    case PopupNote => "{{popup"
  }

  /** One match: where it ends and the replacement text it produces. */
  datatype Hit = Hit(end: nat, text: string)

  /** Link without a `|` part: `[[` then a lazy run up to the first `]]`. */
  function BareLink(s: string, k: nat): (r: Option<Hit>)
    requires 2 <= k <= |s|
    ensures r.Some? ==> k < r.value.end <= |s|
  {
    match LazyUntil(s, k, "]]")
    case Some(q) => Some(Hit(q + 2, s[k..q]))
    case None => None
  }

  /**
   * The match of `t` at index `i`, following the backtracking of Python's
   * `re` module: an optional group is tried first and dropped only when the
   * rest of the pattern fails with it; a lazy run stops at the first place
   * the rest of the pattern matches.
   */
  function MatchAt(s: string, i: nat, t: Template): (r: Option<Hit>)
    requires i <= |s|
    ensures r.Some? ==> OccursAt(s, Opener(t), i) && i < r.value.end <= |s|
  {
    if !OccursAt(s, Opener(t), i) then None
    else match t
      case Wrap(opening, closing, before, after) =>
        if opening == [] then None
        else
          var k := i + |opening|;
          (match LazyUntil(s, k, closing)
           case Some(j) => Some(Hit(j + |closing|, before + s[k..j] + after))
           case None => None)
      case Link =>
        // Once the `|` group is found, a later `|` on the same line cannot help
        // the lazy `.*?` reach a `]]`, so the first `|` decides.
        var k := i + 2;
        (match LazyUntil(s, k, "|")
         case Some(p) =>
           (match LazyUntil(s, p + 1, "]]")
            case Some(q) => Some(Hit(q + 2, s[p + 1..q]))
            case None => BareLink(s, k))
         case None => BareLink(s, k))
      case LineBreak =>
        var k1 := if i + 3 < |s| && IsSpace(s[i + 3]) then i + 4 else i + 3;
        var k2 := if k1 < |s| && s[k1] == '/' then k1 + 1 else k1;
        if k2 < |s| && s[k2] == '>' then Some(Hit(k2 + 1, "\\\\\n")) else None
      case PopupNote =>
        if i + 13 <= |s| && IsSpace(s[i + 7]) && s[i + 8..i + 13] == "note|" then
          (match LazyUntil(s, i + 13, "|")
           case Some(p) =>
             (match LazyUntil(s, p + 1, "}}")
              case Some(q) => Some(Hit(q + 2, s[p + 1..q]))
              case None => None)
           case None => None)
        else None
  }

  /** `re.sub` from index `i` on: replace each leftmost match, copy the other characters. */
  function ReSubFrom(s: string, t: Template, i: nat): string
    requires i <= |s|
    decreases |s| - i
  {
    if i == |s| then ""
    else match MatchAt(s, i, t)
      case Some(h) => h.text + ReSubFrom(s, t, h.end)
      case None => [s[i]] + ReSubFrom(s, t, i + 1)
  }

  /** `re.sub(pattern, replacement, s)`. */
  function ReSub(s: string, t: Template): string
  {
    ReSubFrom(s, t, 0)
  }

  /** A text in which the pattern's opening literal never occurs passes through unchanged. */
  lemma {:induction false} ReSubFromIdentity(s: string, t: Template, i: nat)
    requires i <= |s| && Free(s, Opener(t))
    ensures ReSubFrom(s, t, i) == s[i..]
    decreases |s| - i
  {
    if i < |s| {
      ReSubFromIdentity(s, t, i + 1);
      assert s[i..] == [s[i]] + s[i + 1..];
    }
  }

  lemma {:induction false} ReSubIdentity(s: string, t: Template)
    requires Free(s, Opener(t))
    ensures ReSub(s, t) == s
  {
    ReSubFromIdentity(s, t, 0);
  }

  /** Once a match ends the text, `re.sub` has nothing left to copy. */
  lemma {:induction false} ReSubWhole(s: string, t: Template, h: Hit)
    requires MatchAt(s, 0, t) == Some(h) && h.end == |s|
    ensures ReSub(s, t) == h.text
  {
    assert s != [];
    assert ReSubFrom(s, t, h.end) == "";
  }

  /** A wrapping template matches at the start when its closing literal is found by the lazy run. */
  lemma {:induction false} WrapMatch(s: string, opening: string, closing: string, before: string, after: string, q: nat)
    requires opening != [] && OccursAt(s, opening, 0)
    requires LazyUntil(s, |opening|, closing) == Some(q) && q + |closing| <= |s|
    ensures MatchAt(s, 0, Wrap(opening, closing, before, after)) == Some(Hit(q + |closing|, before + s[|opening|..q] + after))
  {
  }

  /**
   * A wrapping template around a one-line body that does not start its
   * closing literal anywhere is rewritten to the LaTeX wrapper around the body.
   */
  lemma {:induction false} WrapRewrite(opening: string, closing: string, before: string, after: string, body: string)
    requires opening != [] && closing != []
    requires '\n' !in body && closing[0] !in body
    ensures ReSub(opening + body + closing, Wrap(opening, closing, before, after)) == before + body + after
  {
    var s := opening + body + closing;
    var k := |opening|;
    var q := k + |body|;
    assert OccursAt(s, opening, 0) by {
      assert s[0..k] == opening;
    }
    assert s[k..q] == body;
    forall j | k <= j < q ensures !OccursAt(s, closing, j) {
      assert s[j] == body[j - k];
    }
    assert OccursAt(s, closing, q) by {
      assert s[q..] == closing;
    }
    LazyUntilAt(s, k, closing, q);
    WrapMatch(s, opening, closing, before, after, q);
    ReSubWhole(s, Wrap(opening, closing, before, after), Hit(|s|, before + body + after));
  }

  /** A link matches at the start with its `|` group when both lazy runs succeed. */
  lemma {:induction false} LinkMatch(s: string, p: nat, q: nat)
    requires OccursAt(s, "[[", 0)
    requires LazyUntil(s, 2, "|") == Some(p) && p + 1 <= |s| && LazyUntil(s, p + 1, "]]") == Some(q) && q + 2 <= |s|
    ensures MatchAt(s, 0, Link) == Some(Hit(q + 2, s[p + 1..q]))
  {
  }

  /** A link with no `|` matches at the start as a bare link. */
  lemma {:induction false} LinkBareMatch(s: string, q: nat)
    requires OccursAt(s, "[[", 0)
    requires LazyUntil(s, 2, "|") == None && LazyUntil(s, 2, "]]") == Some(q) && q + 2 <= |s|
    ensures MatchAt(s, 0, Link) == Some(Hit(q + 2, s[2..q]))
  {
  }

  /** `[[target|caption]]` becomes its caption. */
  lemma {:induction false} LinkPiped(target: string, caption: string)
    requires '|' !in target && '\n' !in target
    requires ']' !in caption && '\n' !in caption
    ensures ReSub("[[" + target + "|" + caption + "]]", Link) == caption
  {
    var s := "[[" + target + "|" + caption + "]]";
    var p := 2 + |target|;
    var q := p + 1 + |caption|;
    assert OccursAt(s, "[[", 0) by {
      assert s[0..2] == "[[";
    }
    assert s[2..p] == target;
    forall j | 2 <= j < p ensures !OccursAt(s, "|", j) {
      assert s[j] == target[j - 2];
    }
    assert OccursAt(s, "|", p) by {
      assert s[p..p + 1] == [s[p]];
    }
    LazyUntilAt(s, 2, "|", p);
    assert s[p + 1..q] == caption;
    forall j | p + 1 <= j < q ensures !OccursAt(s, "]]", j) {
      assert s[j] == caption[j - p - 1];
    }
    assert OccursAt(s, "]]", q) by {
      assert s[q..] == "]]";
    }
    LazyUntilAt(s, p + 1, "]]", q);
    LinkMatch(s, p, q);
    ReSubWhole(s, Link, Hit(|s|, caption));
  }

  /** `[[caption]]` with no `|` becomes the caption. */
  lemma {:induction false} LinkBare(caption: string)
    requires '|' !in caption && ']' !in caption && '\n' !in caption
    ensures ReSub("[[" + caption + "]]", Link) == caption
  {
    var s := "[[" + caption + "]]";
    var q := 2 + |caption|;
    assert OccursAt(s, "[[", 0) by {
      assert s[0..2] == "[[";
    }
    assert s[2..q] == caption;
    forall j | 2 <= j < q ensures !OccursAt(s, "]]", j) {
      assert s[j] == caption[j - 2];
    }
    assert OccursAt(s, "]]", q) by {
      assert s[q..] == "]]";
    }
    forall j | 2 <= j <= |s| ensures !OccursAt(s, "|", j) {
      if j < q {
        assert s[j] == caption[j - 2];
      } else if j < |s| {
        assert s[j] == ']';
      }
    }
    LazyUntilNone(s, 2, "|");
    LazyUntilAt(s, 2, "]]", q);
    LinkBareMatch(s, q);
    ReSubWhole(s, Link, Hit(|s|, caption));
  }

  /** `{{popup note|note|text}}` keeps only the text. */
  lemma {:induction false} PopupKeepsText(note: string, text: string)
    requires '|' !in note && '\n' !in note
    requires '}' !in text && '\n' !in text
    ensures ReSub("{{popup note|" + note + "|" + text + "}}", PopupNote) == text
  {
    var s := "{{popup note|" + note + "|" + text + "}}";
    var p := 13 + |note|;
    var q := p + 1 + |text|;
    assert s[..13] == "{{popup note|";
    assert s[13..p] == note;
    assert s[p] == '|';
    assert s[p + 1..q] == text;
    assert s[q..] == "}}";
    PopupSlices(s, note, text);
  }

  /** The popup-note rewrite of a text laid out as opener, note, `|`, text and `}}`. */
  lemma {:induction false} PopupSlices(s: string, note: string, text: string)
    requires '|' !in note && '\n' !in note
    requires '}' !in text && '\n' !in text
    requires |s| == 13 + |note| + 1 + |text| + 2 && s[..13] == "{{popup note|"
    requires s[13..13 + |note|] == note && s[13 + |note|] == '|'
    requires s[14 + |note|..14 + |note| + |text|] == text && s[14 + |note| + |text|..] == "}}"
    ensures ReSub(s, PopupNote) == text
  {
    PopupFound(s, note, text);
    ReSubWhole(s, PopupNote, Hit(|s|, text));
  }

  /** Such a text is one popup-note match covering all of it, whose group is the text. */
  lemma {:induction false} PopupFound(s: string, note: string, text: string)
    requires '|' !in note && '\n' !in note
    requires '}' !in text && '\n' !in text
    requires |s| == 13 + |note| + 1 + |text| + 2 && s[..13] == "{{popup note|"
    requires s[13..13 + |note|] == note && s[13 + |note|] == '|'
    requires s[14 + |note|..14 + |note| + |text|] == text && s[14 + |note| + |text|..] == "}}"
    ensures MatchAt(s, 0, PopupNote) == Some(Hit(|s|, text))
  {
    var p := 13 + |note|;
    var q := p + 1 + |text|;
    assert OccursAt(s, "{{popup", 0) by {
      assert s[0..7] == s[..13][0..7];
    }
    assert IsSpace(s[7]) && s[8..13] == "note|" by {
      assert s[7] == s[..13][7];
      assert s[8..13] == s[..13][8..13];
    }
    assert OccursAt(s, "|", p) by {
      assert s[p..p + 1] == [s[p]];
    }
    LazyOver(s, 13, note, "|");
    LazyOver(s, p + 1, text, "}}");
    PopupMatch(s, p, q);
  }

  /** A popup-note match at the start: the text group runs from after the second `|` to the `}}`. */
  lemma {:induction false} PopupMatch(s: string, p: nat, q: nat)
    requires 13 <= p < q && q + 2 <= |s|
    requires OccursAt(s, "{{popup", 0) && IsSpace(s[7]) && s[8..13] == "note|"
    requires LazyUntil(s, 13, "|") == Some(p) && LazyUntil(s, p + 1, "}}") == Some(q)
    ensures MatchAt(s, 0, PopupNote) == Some(Hit(q + 2, s[p + 1..q]))
  {
  }

  // ---------------------------------------------------------------------------
  // Reparser.sub
  // ---------------------------------------------------------------------------

  /** The patterns of the eight `re.sub` calls of `sub`, in source order. */
  const SubTemplates: seq<Template> := [Uline, Larger, XSmaller, XLarger, Bold, Link, LineBreak, PopupNote]

  /** `re.sub` with each pattern in turn, each applied to the output of the one before. */
  function ReSubAll(s: string, ts: seq<Template>): string
    decreases |ts|
  {
    if ts == [] then s else ReSubAll(ReSub(s, ts[0]), ts[1..])
  }

  /** The eight `re.sub` calls of `sub`. */
  function Templates(text: string): string
  {
    ReSubAll(text, SubTemplates)
  }

  /** A text none of whose patterns' opening literals occurs goes through all of them unchanged. */
  lemma {:induction false} ReSubAllIdentity(s: string, ts: seq<Template>)
    requires forall k :: 0 <= k < |ts| ==> Free(s, Opener(ts[k]))
    ensures ReSubAll(s, ts) == s
    decreases |ts|
  {
    if ts != [] {
      ReSubIdentity(s, ts[0]);
      ReSubAllIdentity(s, ts[1..]);
    }
  }

  /** The two `<u>` / `</u>` replacements that start the `str.replace` chain. */
  function UTags(s: string): string
  {
    Replace(Replace(s, "<u>", "\\uline{"), "</u>", "}")
  }

  /** The single-character replacements that end `sub`, in source order. */
  const Escapes: Table := [
    ('\U{2713}', "{\\checked}"),
    ('\U{2013}', "--"),
    ('\U{2014}', "---"),
    ('#', "\\#"),
    ('$', "\\$"),
    ('%', "\\%"),
    ('_', "\\_"),
    ('^', "\\^"),
    ('~', "\\~"),
    ('&', "\\&"),
    ('\U{25A1}', "\\Square~"),
    ('|', "{\\textbar}")
  ]

  /** Reparser.sub: the template rewrites, then the `str.replace` chain. */
  function Sub(text: string): string
  {
    ReplaceChain(UTags(Templates(text)), Escapes)
  }

  /** No escape introduces a character that a later escape rewrites. */
  lemma {:induction false} EscapesSequential()
    ensures Sequential(Escapes)
  {
    forall i, j | 0 <= i < j < |Escapes| ensures Escapes[j].0 !in Escapes[i].1 {
      EscapeEntries(j);
      if i < 3 {
        assert i == 0 || i == 1 || i == 2;
      } else if i < 6 {
        assert i == 3 || i == 4 || i == 5;
      } else if i < 9 {
        assert i == 6 || i == 7 || i == 8;
      } else {
        assert i == 9 || i == 10 || i == 11;
      }
    }
  }

  /** The escape chain of `sub` is one per-character pass: no produced escape is escaped again. */
  lemma {:induction false} SubIsImage(text: string)
    ensures Sub(text) == Image(UTags(Templates(text)), Escapes)
  {
    EscapesSequential();
    ReplaceChainIsImage(UTags(Templates(text)), Escapes);
  }

  /** What one character becomes under the escapes, written out case by case. */
  function EscapeOf(c: char): string
  {
    if c == '\U{2713}' then "{\\checked}"
    else if c == '\U{2013}' then "--"
    else if c == '\U{2014}' then "---"
    else if c in "#$%_^~&" then ['\\', c]
    else if c == '\U{25A1}' then "\\Square~"
    else if c == '|' then "{\\textbar}"
    else [c]
  }

  /** The characters the escape chain replaces. */
  const EscapedChars := "\U{2713}\U{2013}\U{2014}#$%_^~&\U{25A1}|"

  /** Every entry of the chain lists one of the escaped characters and maps it as `EscapeOf` does. */
  lemma {:induction false} EscapeEntries(k: nat)
    requires k < |Escapes|
    ensures Escapes[k].0 in EscapedChars && Escapes[k].1 == EscapeOf(Escapes[k].0)
  {
    if k < 6 {
      assert k == 0 || k == 1 || k == 2 || k == 3 || k == 4 || k == 5;
    } else {
      assert k == 6 || k == 7 || k == 8 || k == 9 || k == 10 || k == 11;
    }
  }

  /** The ordered chain, read as a table, is the case-by-case escape of each character. */
  lemma {:induction false} LookupEscapes(c: char)
    ensures Lookup(Escapes, c) == EscapeOf(c)
  {
    LookupCases(Escapes, c);
    if exists k :: 0 <= k < |Escapes| && Escapes[k].0 == c && Lookup(Escapes, c) == Escapes[k].1 {
      var k :| 0 <= k < |Escapes| && Escapes[k].0 == c && Lookup(Escapes, c) == Escapes[k].1;
      EscapeEntries(k);
    } else {
      assert Escapes[0].0 == '\U{2713}' && Escapes[1].0 == '\U{2013}' && Escapes[2].0 == '\U{2014}';
      assert Escapes[3].0 == '#' && Escapes[4].0 == '$' && Escapes[5].0 == '%' && Escapes[6].0 == '_';
      assert Escapes[7].0 == '^' && Escapes[8].0 == '~' && Escapes[9].0 == '&';
      assert Escapes[10].0 == '\U{25A1}' && Escapes[11].0 == '|';
    }
  }

  /** No bar, dash, check mark or box. */
  predicate Clean(s: string)
  {
    '|' !in s && '\U{2013}' !in s && '\U{2014}' !in s && '\U{2713}' !in s && '\U{25A1}' !in s
  }

  /** The per-character escape pass leaves no bar, dash, check mark or box behind. */
  lemma {:induction false} ImageEscapesClean(s: string)
    ensures Clean(Image(s, Escapes))
  {
    forall c | c in Image(s, Escapes)
      ensures c != '|' && c != '\U{2013}' && c != '\U{2014}' && c != '\U{2713}' && c != '\U{25A1}'
    {
      ImageChars(s, Escapes, c);
      var i :| 0 <= i < |s| && c in Lookup(Escapes, s[i]);
      LookupEscapes(s[i]);
      EscapeOfClean(s[i]);
    }
  }

  /** No single escape holds a bar, a dash, a check mark or a box. */
  lemma {:induction false} EscapeOfClean(c: char)
    ensures Clean(EscapeOf(c))
  {
  }

  /**
   * The output of `sub` holds no `|` (table syntax would break), no en or em
   * dash, no check mark and no box: each became its LaTeX form.
   */
  lemma {:induction false} SubEscaped(text: string)
    ensures Clean(Sub(text))
  {
    SubIsImage(text);
    ImageEscapesClean(UTags(Templates(text)));
  }

  /** Each LaTeX special among `# $ % _ ^ ~ &` gets exactly one backslash in front. */
  lemma {:induction false} EscapeSpecials(c: char)
    requires c in "#$%_^~&"
    ensures Lookup(Escapes, c) == ['\\', c]
  {
    LookupEscapes(c);
  }

  /** A character the chain does not list, such as the backslashes and braces of earlier rewrites, is kept. */
  lemma {:induction false} UnlistedKept(c: char)
    requires c !in EscapedChars
    ensures Lookup(Escapes, c) == [c]
  {
    LookupEscapes(c);
  }

  /** The markup-free part of `sub`: text no template or tag rewrite touches only goes through the escapes. */
  lemma {:induction false} SubNoMarkup(text: string)
    requires Free(text, "{{") && Free(text, "'''") && Free(text, "[[") && Free(text, "<br")
    requires Free(text, "<u>") && Free(text, "</u>")
    ensures Sub(text) == Image(text, Escapes)
  {
    FreeExtends(text, "{{", "{{u|");
    FreeExtends(text, "{{", "{{larger|");
    FreeExtends(text, "{{", "{{x-smaller|");
    FreeExtends(text, "{{", "{{x-larger|");
    FreeExtends(text, "{{", "{{popup");
    forall k | 0 <= k < |SubTemplates| ensures Free(text, Opener(SubTemplates[k])) {
      if k < 4 {
        assert k == 0 || k == 1 || k == 2 || k == 3;
      } else {
        assert k == 4 || k == 5 || k == 6 || k == 7;
      }
    }
    ReSubAllIdentity(text, SubTemplates);
    ReplaceAbsent(text, "<u>", "\\uline{");
    ReplaceAbsent(text, "</u>", "}");
    SubIsImage(text);
  }

  /** A single character goes through `sub` as its escape alone: no template can match it. */
  lemma {:induction false} SubOneChar(c: char)
    ensures Sub([c]) == EscapeOf(c)
  {
    var s := [c];
    SubNoMarkup(s);
    assert s[1..] == [];
    LookupEscapes(c);
  }

  /** A longer pattern cannot occur where one of its prefixes does not. */
  lemma {:induction false} FreeExtends(s: string, pre: string, sub: string)
    requires Free(s, pre) && |pre| <= |sub| && sub[..|pre|] == pre
    ensures Free(s, sub)
  {
    forall j | OccursAt(s, sub, j) ensures OccursAt(s, pre, j) {
      OccursPrefix(s, sub, pre, j);
    }
  }

  /** Text with no template markup and no character to escape passes through `sub` unchanged. */
  lemma {:induction false} SubPlain(text: string)
    requires Free(text, "{{") && Free(text, "'''") && Free(text, "[[") && Free(text, "<br")
    requires Free(text, "<u>") && Free(text, "</u>")
    requires forall k :: 0 <= k < |text| ==> text[k] !in EscapedChars
    ensures Sub(text) == text
  {
    SubNoMarkup(text);
    forall k | 0 <= k < |Escapes| ensures Escapes[k].0 !in text {
      EscapeEntries(k);
    }
    ImageIdentity(text, Escapes);
  }

  // ---------------------------------------------------------------------------
  // Reparser.left
  // ---------------------------------------------------------------------------

  /** `\|offset=(?P<o>\d)em` matches at `j`. */
  predicate OffsetAt(s: string, j: int)
  {
    OccursAt(s, "|offset=", j) && j + 11 <= |s| && IsDigit(s[j + 8]) && s[j + 9..j + 11] == "em"
  }

  /** `re.search` for the offset directive from `j` on: its first match. */
  function OffsetFrom(s: string, j: nat): (r: Option<nat>)
    requires j <= |s|
    ensures r.Some? ==> j <= r.value && OffsetAt(s, r.value)
    ensures forall k :: j <= k && (r.None? || k < r.value) ==> !OffsetAt(s, k)
    decreases |s| - j
  {
    if OffsetAt(s, j) then Some(j)
    else if j == |s| then None
    else OffsetFrom(s, j + 1)
  }

  /**
   * Reparser.left: with an offset directive, the text before the first
   * `|offset` is run through `sub` and indented by the offset in em; without
   * one the text is returned as it is.
   */
  function Left(text: string): (r: string)
    ensures OffsetFrom(text, 0).None? ==> r == text
  {
    match OffsetFrom(text, 0)
    case None => text
    case Some(j) => Indent(text[j + 8], Sub(Slice(text, 0, Index(text, "|offset"))))
  }

  /** The indented line `left` builds from the offset digit and the rewritten text. */
  function Indent(d: char, line: string): string
  {
    "\\hspace*{" + [d] + "em}" + line + " \\\\\n"
  }

  /** With a directive, `left` cuts at the first `|offset`, which is never after the directive. */
  lemma {:induction false} LeftCut(text: string)
    requires OffsetFrom(text, 0).Some?
    ensures 0 <= Index(text, "|offset") <= OffsetFrom(text, 0).value
    ensures Free(text[..Index(text, "|offset")], "|offset")
  {
    var j := OffsetFrom(text, 0).value;
    OccursPrefix(text, "|offset=", "|offset", j);
    var ind := Index(text, "|offset");
    assert ind != -1;
    forall k | OccursAt(text[..ind], "|offset", k) ensures OccursAt(text, "|offset", k) && k < ind {
      assert text[..ind][k..k + 7] == text[k..k + 7];
    }
  }

  /** The indented line holds a `|` only if the digit or the text does. */
  lemma {:induction false} IndentClean(d: char, line: string)
    requires d != '|' && '|' !in line
    ensures '|' !in Indent(d, line)
  {
  }

  /** With a directive, the line `left` produces holds no `|`. */
  lemma {:induction false} LeftNoPipe(text: string)
    requires OffsetFrom(text, 0).Some?
    ensures '|' !in Left(text)
  {
    var j := OffsetFrom(text, 0).value;
    var cut := Slice(text, 0, Index(text, "|offset"));
    assert text[j + 8] != '|';
    assert Left(text) == Indent(text[j + 8], Sub(cut));
    SubEscaped(cut);
    IndentClean(text[j + 8], Sub(cut));
  }

  /**
   * A line written `body|offset=Nem...` with no `|` in the body renders as
   * the rewritten body indented by N em; whatever follows the directive is dropped.
   */
  lemma {:induction false} LeftLayout(body: string, d: char, rest: string)
    requires '|' !in body && IsDigit(d)
    ensures Left(body + "|offset=" + [d] + "em" + rest) == Indent(d, Sub(body))
  {
    var text := body + "|offset=" + [d] + "em" + rest;
    var n := |body|;
    assert text[n..n + 8] == "|offset=";
    assert text[n + 8] == d && text[n + 9..n + 11] == "em";
    assert OffsetAt(text, n);
    forall k | 0 <= k < n ensures !OffsetAt(text, k) && !OccursAt(text, "|offset", k) {
      assert text[k] == body[k];
    }
    assert OffsetFrom(text, 0) == Some(n);
    assert OccursAt(text, "|offset", n) by {
      assert text[n..n + 7] == "|offset";
    }
    assert Index(text, "|offset") == n;
    assert text[..n] == body;
  }

  // ---------------------------------------------------------------------------
  // Reparser.running_header
  // ---------------------------------------------------------------------------

  /** `text.find(key)` as `None` when absent. */
  function FindOpt(text: string, key: string): (r: Option<int>)
    ensures r.Some? ==> OccursAt(text, key, r.value)
  {
    var i := Index(text, key);
    if i == -1 then None else Some(i)
  }

  /** Python truthiness of a `breaks` entry: absent and index 0 both count as false. */
  predicate Truthy(b: Option<int>)
  {
    b.Some? && b.value != 0
  }

  /** `breaks`: where the `|left=`, `|center=` and `|right=` keys start, if they occur. */
  function Breaks(body: string): (b: seq<Option<int>>)
    ensures |b| == 3
  {
    [FindOpt(body, "|left="), FindOpt(body, "|center="), FindOpt(body, "|right=")]
  }

  /**
   * The left, center and right fields of a running header's body, each the
   * slice from after its key up to the next key that is present and truthy.
   */
  function FieldsAt(body: string, b: seq<Option<int>>): (t: seq<Option<string>>)
    requires |b| == 3
    ensures |t| == 3
  {
    var l, c, r := b[0], b[1], b[2];
    var left :=
      if l.None? then None
      else if Truthy(c) then Some(Slice(body, l.value + 6, c.value))
      else if Truthy(r) then Some(Slice(body, l.value + 6, r.value))
      else Some(Slice(body, l.value + 6, |body|));
    var center :=
      if c.None? then None
      else if Truthy(r) then Some(Slice(body, c.value + 8, r.value))
      else Some(Slice(body, c.value + 8, |body|));
    var right := if r.None? then None else Some(Slice(body, r.value + 7, |body|));
    [left, center, right]
  }

  /** The fields `running_header` cuts out of the text between `{{rh` and `}}`. */
  function HeaderFields(body: string): (t: seq<Option<string>>)
    ensures |t| == 3
  {
    FieldsAt(body, Breaks(body))
  }

  /** A field as it goes into the table: rewritten by `sub`, or empty when missing. */
  function RenderField(f: Option<string>): string
  {
    if f.Some? then Sub(f.value) else ""
  }

  /** The LaTeX a running header becomes. */
  function HeaderFrame(left: string, center: string, right: string): string
  {
    "\n\\vfill\n\\begin{spacing}{0}\n\\hfline{" + left + "}{" + center + "}{" + right + "}\n\\end{spacing}\n"
  }

  /** What `running_header(text)` returns. */
  function RunningHeaderSpec(text: string): string
  {
    var t := HeaderFields(Slice(text, 4, -2));
    HeaderFrame(RenderField(t[0]), RenderField(t[1]), RenderField(t[2]))
  }

  /** Reparser.running_header: strip `{{rh` and `}}`, cut the fields, render each in turn. */
  method RunningHeader(text: string) returns (header: string)
    ensures header == RunningHeaderSpec(text)
  {
    var body := Slice(text, 4, -2);
    var fields := HeaderFields(body);
    var t: seq<string> := ["", "", ""];
    for index := 0 to 3
      invariant |t| == 3
      invariant forall k :: 0 <= k < index ==> t[k] == RenderField(fields[k])
    {
      if fields[index].Some? {
        t := t[index := Sub(fields[index].value)];
      } else {
        t := t[index := ""];
      }
    }
    header := HeaderFrame(t[0], t[1], t[2]);
  }

  /** An occurrence of a key of two or more characters starts with the key's first two characters. */
  lemma {:induction false} KeyAt(s: string, key: string, k: int)
    requires OccursAt(s, key, k) && |key| >= 2
    ensures s[k] == key[0] && s[k + 1] == key[1]
  {
    assert s[k..k + |key|][0] == s[k] && s[k..k + |key|][1] == s[k + 1];
  }

  /** `find` reports the first occurrence. */
  lemma {:induction false} FirstKey(s: string, key: string, at: nat)
    requires OccursAt(s, key, at)
    requires forall k :: OccursAt(s, key, k) ==> at <= k
    ensures FindOpt(s, key) == Some(at)
  {
  }

  /**
   * A header laid out `{{rh|left=L|center=C|right=R}}` with no `|` inside
   * the fields renders each field through `sub` into its own cell.
   */
  lemma {:induction false} HeaderLayout(left: string, center: string, right: string)
    requires '|' !in left && '|' !in center && '|' !in right
    ensures RunningHeaderSpec("{{rh|left=" + left + "|center=" + center + "|right=" + right + "}}")
            == HeaderFrame(Sub(left), Sub(center), Sub(right))
  {
    var text := "{{rh|left=" + left + "|center=" + center + "|right=" + right + "}}";
    var body := "|left=" + left + "|center=" + center + "|right=" + right;
    assert Slice(text, 4, -2) == body by {
      assert text == "{{rh" + body + "}}";
      assert text[4..|text| - 2] == body;
    }
    HeaderFieldsLayout(left, center, right);
  }

  /** The three fields of a `|left=L|center=C|right=R` body are L, C and R. */
  lemma {:induction false} HeaderFieldsLayout(left: string, center: string, right: string)
    requires '|' !in left && '|' !in center && '|' !in right
    ensures HeaderFields("|left=" + left + "|center=" + center + "|right=" + right)
            == [Some(left), Some(center), Some(right)]
  {
    var body := "|left=" + left + "|center=" + center + "|right=" + right;
    var c := 6 + |left|;
    var r := c + 8 + |center|;
    BreaksOfLayout(left, center, right);
    FieldsInOrder(body, 0, c, r);
    assert body[6..c] == left && body[c + 8..r] == center && body[r + 7..] == right;
    assert Slice(body, 6, c) == left;
    assert Slice(body, c + 8, r) == center;
    assert Slice(body, r + 7, |body|) == right;
  }

  /** With all three keys present and none at index 0 but the first, each field runs up to the next key. */
  lemma {:induction false} FieldsInOrder(body: string, l: int, c: int, r: int)
    requires c != 0 && r != 0
    ensures FieldsAt(body, [Some(l), Some(c), Some(r)])
            == [Some(Slice(body, l + 6, c)), Some(Slice(body, c + 8, r)), Some(Slice(body, r + 7, |body|))]
  {
  }

  /** In a `|left=L|center=C|right=R` body each key is found where it was written. */
  lemma {:induction false} BreaksOfLayout(left: string, center: string, right: string)
    requires '|' !in left && '|' !in center && '|' !in right
    ensures Breaks("|left=" + left + "|center=" + center + "|right=" + right)
            == [Some(0), Some(6 + |left|), Some(14 + |left| + |center|)]
  {
    var body := "|left=" + left + "|center=" + center + "|right=" + right;
    var c := 6 + |left|;
    var r := c + 8 + |center|;
    forall k | 0 <= k < |body| && k != 0 && k != c && k != r ensures body[k] != '|' {
      if k < 6 {
        assert body[k] == "|left="[k];
      } else if k < c {
        assert body[k] == left[k - 6];
      } else if k < c + 8 {
        assert body[k] == "|center="[k - c];
      } else if k < r {
        assert body[k] == center[k - c - 8];
      } else if k < r + 7 {
        assert body[k] == "|right="[k - r];
      } else {
        assert body[k] == right[k - r - 7];
      }
    }
    assert body[1] == 'l' && body[c + 1] == 'c' && body[r + 1] == 'r';
    forall k | OccursAt(body, "|center=", k) ensures c <= k {
      KeyAt(body, "|center=", k);
    }
    forall k | OccursAt(body, "|right=", k) ensures r <= k {
      KeyAt(body, "|right=", k);
    }
    assert OccursAt(body, "|left=", 0) by {
      assert body[0..6] == "|left=";
    }
    assert OccursAt(body, "|center=", c) by {
      assert body[c..c + 8] == "|center=";
    }
    assert OccursAt(body, "|right=", r) by {
      assert body[r..r + 7] == "|right=";
    }
    FirstKey(body, "|left=", 0);
    FirstKey(body, "|center=", c);
    FirstKey(body, "|right=", r);
  }

  /** A header with only a left and a right field leaves the center cell empty. */
  lemma {:induction false} HeaderNoCenter(left: string, right: string)
    requires '|' !in left && '|' !in right
    ensures RunningHeaderSpec("{{rh|left=" + left + "|right=" + right + "}}")
            == HeaderFrame(Sub(left), "", Sub(right))
  {
    var text := "{{rh|left=" + left + "|right=" + right + "}}";
    var body := "|left=" + left + "|right=" + right;
    assert Slice(text, 4, -2) == body by {
      assert text == "{{rh" + body + "}}";
      assert text[4..|text| - 2] == body;
    }
    HeaderFieldsNoCenter(left, right);
  }

  /** The fields of a `|left=L|right=R` body are L, nothing and R. */
  lemma {:induction false} HeaderFieldsNoCenter(left: string, right: string)
    requires '|' !in left && '|' !in right
    ensures HeaderFields("|left=" + left + "|right=" + right) == [Some(left), None, Some(right)]
  {
    var body := "|left=" + left + "|right=" + right;
    var r := 6 + |left|;
    BreaksOfShortLayout(left, right);
    assert body[6..r] == left && body[r + 7..] == right;
    assert Slice(body, 6, r) == left;
    assert Slice(body, r + 7, |body|) == right;
  }

  /** In a `|left=L|right=R` body the keys are found where they were written and `|center=` is absent. */
  lemma {:induction false} BreaksOfShortLayout(left: string, right: string)
    requires '|' !in left && '|' !in right
    ensures Breaks("|left=" + left + "|right=" + right) == [Some(0), None, Some(6 + |left|)]
  {
    var body := "|left=" + left + "|right=" + right;
    var r := 6 + |left|;
    forall k | 0 <= k < |body| && k != 0 && k != r ensures body[k] != '|' {
      if k < 6 {
        assert body[k] == "|left="[k];
      } else if k < r {
        assert body[k] == left[k - 6];
      } else if k < r + 7 {
        assert body[k] == "|right="[k - r];
      } else {
        assert body[k] == right[k - r - 7];
      }
    }
    assert body[1] == 'l' && body[r + 1] == 'r';
    forall k | OccursAt(body, "|right=", k) ensures r <= k {
      KeyAt(body, "|right=", k);
    }
    forall k | OccursAt(body, "|center=", k) ensures body[k] == '|' && body[k + 1] == 'c' {
      KeyAt(body, "|center=", k);
    }
    assert OccursAt(body, "|left=", 0) by {
      assert body[0..6] == "|left=";
    }
    assert OccursAt(body, "|right=", r) by {
      assert body[r..r + 7] == "|right=";
    }
    assert FindOpt(body, "|center=") == None;
    FirstKey(body, "|left=", 0);
    FirstKey(body, "|right=", r);
  }

  /** A header with only a left field fills the left cell and leaves the other two empty. */
  lemma {:induction false} HeaderLeftOnly(left: string)
    requires '|' !in left
    ensures RunningHeaderSpec("{{rh|left=" + left + "}}") == HeaderFrame(Sub(left), "", "")
  {
    var text := "{{rh|left=" + left + "}}";
    var body := "|left=" + left;
    assert Slice(text, 4, -2) == body by {
      assert text == "{{rh" + body + "}}";
      assert text[4..|text| - 2] == body;
    }
    HeaderFieldsLeftOnly(left);
  }

  /** The left field of a `|left=L` body runs to the end of the body. */
  lemma {:induction false} HeaderFieldsLeftOnly(left: string)
    requires '|' !in left
    ensures HeaderFields("|left=" + left) == [Some(left), None, None]
  {
    var body := "|left=" + left;
    BreaksOfLeftOnly(left);
    assert body[6..] == left;
    assert Slice(body, 6, |body|) == left;
  }

  /** In a `|left=L` body only the left key occurs, at the start. */
  lemma {:induction false} BreaksOfLeftOnly(left: string)
    requires '|' !in left
    ensures Breaks("|left=" + left) == [Some(0), None, None]
  {
    var body := "|left=" + left;
    forall k | 0 <= k < |body| && k != 0 ensures body[k] != '|' {
      if k < 6 {
        assert body[k] == "|left="[k];
      } else {
        assert body[k] == left[k - 6];
      }
    }
    assert body[1] == 'l';
    forall k | OccursAt(body, "|center=", k) ensures body[k] == '|' && body[k + 1] == 'c' {
      KeyAt(body, "|center=", k);
    }
    forall k | OccursAt(body, "|right=", k) ensures body[k] == '|' && body[k + 1] == 'r' {
      KeyAt(body, "|right=", k);
    }
    assert OccursAt(body, "|left=", 0) by {
      assert body[0..6] == "|left=";
    }
    assert FindOpt(body, "|center=") == None;
    assert FindOpt(body, "|right=") == None;
    FirstKey(body, "|left=", 0);
  }

  /** A header without a left field leaves the left cell empty and fills the other two. */
  lemma {:induction false} HeaderNoLeft(center: string, right: string)
    requires '|' !in center && '|' !in right
    ensures RunningHeaderSpec("{{rh|center=" + center + "|right=" + right + "}}")
            == HeaderFrame("", Sub(center), Sub(right))
  {
    var text := "{{rh|center=" + center + "|right=" + right + "}}";
    var body := "|center=" + center + "|right=" + right;
    assert Slice(text, 4, -2) == body by {
      assert text == "{{rh" + body + "}}";
      assert text[4..|text| - 2] == body;
    }
    HeaderFieldsNoLeft(center, right);
  }

  /** The fields of a `|center=C|right=R` body are nothing, C and R. */
  lemma {:induction false} HeaderFieldsNoLeft(center: string, right: string)
    requires '|' !in center && '|' !in right
    ensures HeaderFields("|center=" + center + "|right=" + right) == [None, Some(center), Some(right)]
  {
    var body := "|center=" + center + "|right=" + right;
    var r := 8 + |center|;
    BreaksOfNoLeft(center, right);
    assert body[8..r] == center && body[r + 7..] == right;
    assert Slice(body, 8, r) == center;
    assert Slice(body, r + 7, |body|) == right;
  }

  /** In a `|center=C|right=R` body the keys are found where they were written and `|left=` is absent. */
  lemma {:induction false} BreaksOfNoLeft(center: string, right: string)
    requires '|' !in center && '|' !in right
    ensures Breaks("|center=" + center + "|right=" + right) == [None, Some(0), Some(8 + |center|)]
  {
    var body := "|center=" + center + "|right=" + right;
    var r := 8 + |center|;
    forall k | 0 <= k < |body| && k != 0 && k != r ensures body[k] != '|' {
      if k < 8 {
        assert body[k] == "|center="[k];
      } else if k < r {
        assert body[k] == center[k - 8];
      } else if k < r + 7 {
        assert body[k] == "|right="[k - r];
      } else {
        assert body[k] == right[k - r - 7];
      }
    }
    assert body[1] == 'c' && body[r + 1] == 'r';
    forall k | OccursAt(body, "|right=", k) ensures r <= k {
      KeyAt(body, "|right=", k);
    }
    forall k | OccursAt(body, "|left=", k) ensures body[k] == '|' && body[k + 1] == 'l' {
      KeyAt(body, "|left=", k);
    }
    assert OccursAt(body, "|center=", 0) by {
      assert body[0..8] == "|center=";
    }
    assert OccursAt(body, "|right=", r) by {
      assert body[r..r + 7] == "|right=";
    }
    assert FindOpt(body, "|left=") == None;
    FirstKey(body, "|center=", 0);
    FirstKey(body, "|right=", r);
  }

  // ---------------------------------------------------------------------------
  // Reparser.traverse
  // ---------------------------------------------------------------------------

  /** The exception `traverse` raises. */
  datatype ParseError = ParseError(message: string)

  /** Reparser.traverse: the `{{` and `}}` found by `findall` must be equally many. */
  method Traverse(text: string) returns (r: Outcome<ParseError>)
    ensures r.Pass? <==> |FindAllSpec(text, "{{", 0, None)| == |FindAllSpec(text, "}}", 0, None)|
    ensures r.Fail? ==> r.error == ParseError("Mismatched number of open/close brackets: " + text)
  {
    var l := FindAll(text, "{{", 0, None);
    var rr := FindAll(text, "}}", 0, None);
    if |l| != |rr| {
      r := Fail(ParseError("Mismatched number of open/close brackets: " + text));
    } else {
      r := Pass;
    }
  }

  /** A text without braces has no `{{` and no `}}` to count. */
  lemma {:induction false} NoBracesNoHits(text: string, sub: string)
    requires |sub| > 0 && (sub[0] == '{' || sub[0] == '}')
    requires '{' !in text && '}' !in text
    ensures FindAllSpec(text, sub, 0, None) == []
  {
    var i := Find(text, sub, 0, |text|);
    if i != -1 {
      assert text[i] == sub[0];
    }
  }

  /** One template around brace-free text is balanced. */
  lemma {:induction false} SingleTemplateBalanced(inner: string)
    requires '{' !in inner && '}' !in inner
    ensures |FindAllSpec("{{" + inner + "}}", "{{", 0, None)| == 1
    ensures |FindAllSpec("{{" + inner + "}}", "}}", 0, None)| == 1
  {
    var s := "{{" + inner + "}}";
    var n := |inner|;
    assert s[0..2] == "{{";
    assert s[n + 2..n + 4] == "}}";
    forall k | 2 <= k < n + 2 ensures s[k] == inner[k - 2] {
    }
    assert Find(s, "{{", 0, |s|) == 0;
    assert Find(s, "{{", 2, |s|) == -1 by {
      forall k | 2 <= k && k + 2 <= |s| ensures !OccursAt(s, "{{", k) {
        assert s[k] != '{';
      }
    }
    assert FindAllFrom(s, "{{", 0, |s|) == [0] + FindAllFrom(s, "{{", 2, |s|);
    forall k | 0 <= k < n + 2 ensures !OccursAt(s, "}}", k) {
      if k >= 2 {
        assert s[k] != '}';
      } else {
        assert s[k] == '{';
      }
    }
    assert OccursAt(s, "}}", n + 2);
    assert Find(s, "}}", 0, |s|) == n + 2;
    assert Find(s, "}}", n + 4, |s|) == -1;
    assert FindAllFrom(s, "}}", 0, |s|) == [n + 2] + FindAllFrom(s, "}}", n + 4, |s|);
  }
}
