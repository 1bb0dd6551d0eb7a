# Wikisource-to-LaTeX core, modelled in Dafny

This project models the parts of the Wikisource-to-LaTeX converter that turn transcribed
wiki markup into LaTeX. It covers five things:

- the template substitution helper (`Reparser`);
- the table builder (`Table`, `Cell`);
- the table-of-contents builder (`TOC`);
- the token dispatcher and its basic text handlers (`Parser`);
- the page-list grouping and URL forming used to request pages from the MediaWiki API (`Document`).

It also models the two utilities the core relies on: `findall` and `ProgressChecker`.

## Modules

**Strings** (`strings.dfy`) holds the Python string semantics the core relies on:
- `str.find` with Python's clamping of negative and oversized bounds, and slicing with negative indexes;
- `str.replace`, `str.split` and `str.join`;
- `str(int)`;
- chains of single-character replacements, proved equal to one per-character map (`Image`).

**Util** (`util.dfy`) holds `findall` as a loop proved against a recursive specification, and the `ProgressChecker` tally.

**Reparse** (`reparse.dfy`) holds `Reparser`:
- `sub`: the eight `re.sub` rewrites are modelled as a leftmost scan with a lazy `.*?` that stops at a newline. The replace chain is proved to be one per-character escape map.
- `left`, `running_header` and `traverse`.

**Wikitable** (`wikitable.dfy`) holds the `Table` and `Cell` classes.

**Toc** (`toc.dfy`) holds the `TOC` class.
- `parse` is a method proved equal to a fold over the rows.
- `make_props` is proved to emit a well-formed `\ListProperties(...)` line.

**TokenParser** (`tokenparser.dfy`) holds `Parser`. `dispatch` is proved equal to a recursive description of the whole run, including the exception that ends it.

**Api** (`api.dfy`) holds `split_calls` and `form_call`, with the grouping proved to:
- partition the list;
- respect the 50-title limit;
- keep page numbers of different digit counts apart.

Python exceptions become error values: `Result`/`Outcome` carrying the exception's name.
Integers are unbounded. Strings are `seq<char>`.

## Model

| member | source | states |
|---|---|---|
| Strings.Find | util.py:27 | `str.find`: -1, or the first occurrence inside the clamped window `start..end`; no occurrence lies before it in the window |
| Strings.ContainsIff | toc.py:104 | the `in` test on strings holds exactly when the pattern occurs somewhere |
| Strings.SliceIndex | reparse.py:58 | a Python slice bound (negative counts from the end) is clamped into `0..len` |
| Strings.ReplaceAbsent | reparse.py:108-112 | `str.replace` with a pattern that does not occur leaves the string unchanged |
| Strings.ReplaceChars | reparse.py:108-112 | every character of a `str.replace` result comes from the input or from the replacement |
| Strings.ReplaceCharIsImage | reparse.py:108-112 | replacing one character is the per-character map with that one entry |
| Strings.ImageCompose | reparse.py:108-112 | two successive per-character replacements compose into one map when the first's output holds none of the later keys |
| Strings.ReplaceChainIsImage | reparse.py:108-112 | a chain of `replace` calls whose replacements hold no later key equals one per-character map |
| Strings.ImageIdentity | reparse.py:108-112 | the map leaves a string with none of its keys unchanged |
| Strings.ImageChars | tokenparser.py:68-69 | every character of a mapped string comes from the image of some input character |
| Strings.Split | toc.py:47 | `str.split` returns at least one piece |
| Strings.JoinSplit | toc.py:47 | joining the pieces of a split with the separator gives back the string |
| Strings.SplitPiecesFree | toc.py:47 | no piece of a split contains the separator |
| Strings.SplitJoin | api.py:102-103 | splitting a join on a one-character separator absent from every piece gives back the pieces |
| Strings.NatStr | api.py:102 | `str(n)` of a natural number is a non-empty run of decimal digits |
| Strings.ParseNatStr | api.py:102 | reading `str(n)` back as a decimal numeral gives `n` |
| Util.FindAll | util.py:22-33 | the loop returns the scan `FindAllSpec`; `None` and 0 as end both mean the whole string |
| Util.FindAllSound | util.py:26-32 | every reported index is an occurrence inside the clamped window |
| Util.FindAllSpaced | util.py:30 | consecutive results are at least two apart, so the list is strictly increasing |
| Util.FindAllComplete | util.py:26-32 | every occurrence in the window starts at a reported index or one past it; the skip of 2 can miss only those |
| Util.ProgressChecker.constructor | util.py:43-44 | five zero counters |
| Util.ProgressChecker.Page | util.py:55-57 | levels 0..4 add one to their counter and -5..-1 count from the end; any other level is an IndexError with the tally unchanged |
| Reparse.LazyUntil | reparse.py:96-107 | lazy `.*?` followed by a closing text: the first closing occurrence reachable without crossing a newline, or none |
| Reparse.MatchAt | reparse.py:96-107 | a match of a template at `i` starts with its opener and ends after `i` inside the string |
| Reparse.BareLink | reparse.py:104 | the un-piped link alternative ends strictly after its start |
| Reparse.ReSubIdentity | reparse.py:96-107 | `re.sub` of a template whose opener never occurs leaves the text unchanged |
| Reparse.ReSubWhole | reparse.py:96-107 | when the match at 0 covers the whole text, `re.sub` yields just the replacement |
| Reparse.WrapMatch | reparse.py:96-103 | a wrapping template matches from its opener up to the first closing text and rewrites to before + body + after |
| Reparse.WrapRewrite | reparse.py:96-103 | `{{u\|B}}`, `{{larger\|B}}`, `{{x-smaller\|B}}`, `{{x-larger\|B}}` and `'''B'''` become their LaTeX wrappers around a one-line body B |
| Reparse.LinkMatch | reparse.py:104-105 | a piped link matches up to `]]` and keeps only the text after the first bar |
| Reparse.LinkBareMatch | reparse.py:104-105 | a link without a bar keeps its whole inner text |
| Reparse.LinkPiped | reparse.py:104-105 | `[[target\|caption]]` becomes `caption` |
| Reparse.LinkBare | reparse.py:104-105 | `[[caption]]` becomes `caption` |
| Reparse.PopupMatch | reparse.py:107 | a popup note matches from `{{popup note\|` to the first `}}` after the second bar and keeps the text after that bar |
| Reparse.PopupKeepsText | reparse.py:107 | `{{popup note\|N\|T}}` becomes `T` |
| Reparse.ReSubAllIdentity | reparse.py:96-107 | a text holding none of the openers passes the eight rewrites unchanged |
| Reparse.EscapesSequential | reparse.py:108-112 | no escape's replacement holds a character a later escape replaces, so the chain acts character by character |
| Reparse.SubIsImage | reparse.py:94-113 | `sub` is the template rewrites, then the `<u>` tags, then one per-character escape map |
| Reparse.LookupEscapes | reparse.py:108-112 | each character is escaped as `EscapeOf` lists, case by case |
| Reparse.ImageEscapesClean | reparse.py:108-112 | after the escape map, no bar, en or em dash, check mark or box remains |
| Reparse.EscapeOfClean | reparse.py:108-112 | no single escape produces a bar, dash, check mark or box |
| Reparse.SubEscaped | reparse.py:94-113 | the output of `sub` never holds a bare bar, dash, check mark or box |
| Reparse.EscapeSpecials | reparse.py:110-112 | `# $ % _ ^ ~ &` each get a backslash |
| Reparse.UnlistedKept | reparse.py:108-112 | a character outside the escape list is copied unchanged |
| Reparse.SubNoMarkup | reparse.py:94-113 | text without template openers or `<u>` tags is only escaped |
| Reparse.SubOneChar | reparse.py:94-113 | `sub` of one character is its escape |
| Reparse.SubPlain | reparse.py:94-113 | text without markup or escaped characters is returned unchanged |
| Reparse.OffsetFrom | reparse.py:31 | the first `\|offset=<digit>em` at or after `j`, or none |
| Reparse.Left | reparse.py:29-38 | text without an offset marker is returned unchanged |
| Reparse.LeftCut | reparse.py:34-35 | the cut point `text.find('\|offset')` lies at or before the matched marker, and the kept prefix has no marker |
| Reparse.IndentClean | reparse.py:37 | the indented line adds no bar |
| Reparse.LeftNoPipe | reparse.py:29-38 | when an offset is found, the result holds no bar |
| Reparse.LeftLayout | reparse.py:29-38 | `B\|offset=Dem...` becomes `\hspace*{Dem}` + sub(B) + a line break |
| Reparse.FindOpt | reparse.py:60-62 | a present key index is an occurrence of the key |
| Reparse.Breaks | reparse.py:60-62 | three key positions |
| Reparse.HeaderFields | reparse.py:64-84 | three fields |
| Reparse.RunningHeader | reparse.py:55-92 | the method builds the running-header frame `RunningHeaderSpec` |
| Reparse.HeaderLayout | reparse.py:55-92 | `{{rh\|left=L\|center=C\|right=R}}` becomes the frame of sub(L), sub(C), sub(R) |
| Reparse.HeaderFieldsLayout | reparse.py:64-84 | the body `\|left=L\|center=C\|right=R` splits into L, C and R |
| Reparse.BreaksOfLayout | reparse.py:60-62 | the key positions of a full layout |
| Reparse.HeaderNoCenter | reparse.py:55-92 | without a center key the center cell is empty |
| Reparse.HeaderFieldsNoCenter | reparse.py:64-84 | without a center key the fields are L, absent, R |
| Reparse.BreaksOfShortLayout | reparse.py:60-62 | the key positions of a layout without center |
| Reparse.HeaderLeftOnly | reparse.py:55-92 | `{{rh\|left=L}}` becomes the frame of sub(L) and two empty cells: the left field runs to the end |
| Reparse.HeaderFieldsLeftOnly | reparse.py:64-84 | the fields of `\|left=L` are L, absent, absent |
| Reparse.BreaksOfLeftOnly | reparse.py:60-62 | only the left key occurs, at index 0 |
| Reparse.HeaderNoLeft | reparse.py:55-92 | `{{rh\|center=C\|right=R}}` becomes an empty left cell and the frame of sub(C), sub(R) |
| Reparse.HeaderFieldsNoLeft | reparse.py:64-84 | the fields of `\|center=C\|right=R` are absent, C and R |
| Reparse.BreaksOfNoLeft | reparse.py:60-62 | the key positions of a layout without left |
| Reparse.Traverse | reparse.py:40-44 | passes exactly when `{{` and `}}` are found equally often; otherwise ParseError with the fixed message and the text |
| Reparse.NoBracesNoHits | reparse.py:41-42 | text without braces has no brace hits |
| Reparse.SingleTemplateBalanced | reparse.py:40-44 | one brace-free template has one opening and one closing hit |
| Wikitable.Hundredths | wikitable.py:70 | the fractional part prints as one or two digits |
| Wikitable.HundredthsValue | wikitable.py:70-76 | those digits read back as the hundredths with Python's float printing (no trailing zero) |
| Wikitable.FloatTextValue | wikitable.py:70-76 | `str(round(w/100, 2))` is the whole part, a dot and the hundredths, and reads back as `w` hundredths |
| Wikitable.WidthClamp | wikitable.py:73-74 | every width below 70 gives the same `0.7\textwidth` |
| Wikitable.Table.constructor | wikitable.py:28-48 | the initial parts, the format defaults and no rows |
| Wikitable.Table.AppendCell | wikitable.py:50-52 | appends the cell to the current row |
| Wikitable.Table.AppendRow | wikitable.py:54-57 | a non-empty current row is appended to the rows; the current row is emptied |
| Wikitable.Table.End | wikitable.py:59-63 | a non-empty current row is appended to the rows |
| Wikitable.Table.SetAlignment | wikitable.py:65-67 | only `center` changes the alignment |
| Wikitable.Table.SetWidth | wikitable.py:69-76 | the width part becomes `WidthText(w)`: full width at 100, 0.7 below 70, else the rounded fraction |
| Wikitable.CellTextPlain | wikitable.py:96-103 | a cell without a popup note joins its three parts unchanged |
| Wikitable.CellTextPopup | wikitable.py:96-103 | a popup note in the body is replaced by its text |
| Wikitable.Cell.constructor | wikitable.py:79-91 | three empty parts and the default formats |
| Wikitable.Cell.Append | wikitable.py:93-94 | appends to the body only |
| Wikitable.Cell.Parse | wikitable.py:101-104 | the body's popup notes are rewritten |
| Wikitable.Cell.End | wikitable.py:96-99 | returns the joined cell after the popup rewrite and stores the rewritten body |
| Wikitable.Cell.Reset | wikitable.py:106-109 | empties the parts and clears only the column span |
| Toc.LinesCover | toc.py:47 | the rows, joined back with `\|-`, give the text without newlines, except for a dropped empty first row; no row holds `\|-` |
| Toc.Pipes | toc.py:108-110 | the leading run of bars |
| Toc.LeadingPipes | toc.py:106-110 | the loop counts the leading bars, or fails (IndexError) on a line of bars only |
| Toc.AlnumRun | toc.py:114 | the longest alphanumeric prefix |
| Toc.UpToNewline | toc.py:114 | `.*` stops at the first newline |
| Toc.LabelStrip | toc.py:114-116 | a numbering label `A.\|` (1-4 alphanumerics, optional space) is removed |
| Toc.LabelKeep | toc.py:114-116 | a row without a dot keeps its text |
| Toc.PageNumberAt | toc.py:125 | a page number `X-ddd` match is 3 to 5 characters long |
| Toc.PageNumbersIdentity | toc.py:125 | text without a dash has no page number to tag |
| Toc.PageNumberTagged | toc.py:125 | `X-ddd` gets `\hfill ` before it |
| Toc.Bullets | toc.py:126 | `"@"*level` |
| Toc.Bind | toc.py:111-112 | a level's marker is set on first sight and never changed |
| Toc.RowShape | toc.py:103-118 | empty rows are skipped, bar-only rows fail, otherwise the level, marker and text; the newpage flag follows the marker |
| Toc.RowTextNoBar | toc.py:119-120 | a row's text holds no bar after `sub` and the `{\textbar}` removal |
| Toc.NewpageCutFirst | toc.py:93-97 | the kept text is the prefix before the first `---NEWPAGE---` |
| Toc.RowBinds | toc.py:111-112 | a row never changes an existing binding; a new level is bound to its marker; a row fails exactly when it is bars only |
| Toc.RowLevel | toc.py:106-112 | the level is the number of leading bars, and the marker is the character after them |
| Toc.ParseKeeps | toc.py:102-136 | parsing many rows keeps every earlier level binding |
| Toc.PlainRow | toc.py:131-136 | outside a page list a row appends its bullets, a space, its text and a newline |
| Toc.EntryBreak | toc.py:127-136 | a pending new page appends `\newpage` and the declassification banner |
| Toc.NewpageRow | toc.py:103-136 | a row with the marker fails, or leaves the page break pending, or ends the output with it |
| Toc.StrLeTotal | toc.py:61 | string order is total |
| Toc.StrLeTrans | toc.py:61 | string order is transitive |
| Toc.StrLeAntisymmetric | toc.py:61 | string order is antisymmetric |
| Toc.PageKey | toc.py:61 | the last of the sorted keys is a key and no key sorts after it |
| Toc.PageKeyUnique | toc.py:61 | that key is unique |
| Toc.TerminatedConcat | toc.py:63-91 | comma-terminating items distributes over concatenation |
| Toc.LevelItemsText | toc.py:73-90 | each level's items are comma-terminated |
| Toc.CommaShift | toc.py:91 | cutting the final comma gives the comma-separated items |
| Toc.PropsClosed | toc.py:63-91 | the properties line ends with `)` and a newline, with no comma before the parenthesis |
| Toc.TOC.constructor | toc.py:27-39 | empty text, rows, levels, props and output; both flags false; `sub` is the `Reparser.sub` model |
| Toc.TOC.Append | toc.py:41-42 | appends raw text |
| Toc.TOC.End | toc.py:54-57 | the easylist frame around props then entries |
| Toc.TOC.Newpage | toc.py:93-97 | sets the flag and returns the text before the marker |
| Toc.TOC.ReadRow | toc.py:103-118 | reads a row's shape; sets the newpage flag on the marker |
| Toc.TOC.AddRow | toc.py:111-136 | binds the level and appends the entry |
| Toc.TOC.ParseRow | toc.py:102-136 | one row of the loop is `RowStep`; IndexError exactly on a bar-only row |
| Toc.TOC.Parse | toc.py:99-136 | IndexError on no rows; else `Page` in the first row sets the page-list flag and the loop is the fold `ParseFrom` |
| Toc.TOC.MakeProps | toc.py:59-91 | for a page list, the largest key is dropped first; IndexError exactly for a page list with no keys; UnboundLocalError exactly when level 1 is unbound; otherwise appends `PropsText` |
| Toc.TOC.DropPageKey | toc.py:60-62 | drops the largest key, or IndexError on no keys |
| Toc.TOC.WriteProps | toc.py:63-91 | appends `PropsText`, or UnboundLocalError when level 1 is missing |
| Toc.TOC.WriteLevel | toc.py:66-90 | appends the items for one level's style |
| Toc.TOC.Begin | toc.py:44-52 | cuts from the first bar and splits the rows; IndexError on no rows or a failing row; otherwise the entries and page flag are the fold's, the levels are the fold's less the page key in page-list mode, and the result is `End()` with `PropsText` appended exactly when `make_props` raises neither IndexError nor UnboundLocalError |
| Toc.TOC.Finish | toc.py:50-52 | make_props then end: succeeds exactly when make_props raises nothing, returning `End()` over the appended `PropsText` |
| TokenParser.Lower | tokenparser.py:32 | lower-casing keeps the length |
| TokenParser.LowerNoUpper | tokenparser.py:32 | no upper-case ASCII letter remains |
| TokenParser.LowerIdempotent | tokenparser.py:32 | lower-casing twice is lower-casing once |
| TokenParser.KindIgnoresCase | tokenparser.py:32 | handler selection ignores the case of the token kind |
| TokenParser.PunctText | tokenparser.py:59-64 | a backslash is prefixed exactly for the ten LaTeX specials |
| TokenParser.PunctRoundTrip | tokenparser.py:59-64 | dropping the escape gives the punctuation back |
| TokenParser.PunctSpecial | tokenparser.py:61-63 | per character: the specials are escaped, all others kept |
| TokenParser.WordIsImage | tokenparser.py:66-70 | the word handler is the one-entry map é → `\'{e}` |
| TokenParser.WordNoAccent | tokenparser.py:66-70 | no é remains in a written word |
| TokenParser.WordPlain | tokenparser.py:66-70 | a word without é is written unchanged |
| TokenParser.WhitespaceText | tokenparser.py:76-82 | whitespace becomes a line break exactly when it holds CR or LF, else one space |
| TokenParser.Dispatched | tokenparser.py:29-36 | the run ends normally or with TypeError |
| TokenParser.DispatchedFails | tokenparser.py:29-36 | the run fails exactly when some token names a non-callable member |
| TokenParser.DispatchedTexts | tokenparser.py:29-36 | a run that passes writes the concatenation of the tokens' texts |
| TokenParser.DispatchedConcat | tokenparser.py:29-36 | dispatching a + b is dispatching a, then b from a's value, unless a failed |
| TokenParser.DispatchedSilent | tokenparser.py:35-36 | tokens without a handler write nothing |
| TokenParser.Parser.constructor | tokenparser.py:25-27 | empty output sink |
| TokenParser.Parser.Write | tokenparser.py:38-39 | appends to the output |
| TokenParser.Parser.HandleEllipses | tokenparser.py:55-57 | writes the value unchanged |
| TokenParser.Parser.HandlePunct | tokenparser.py:59-64 | stores and writes `PunctText(value)` |
| TokenParser.Parser.HandleWord | tokenparser.py:66-70 | stores and writes `WordText(value)` |
| TokenParser.Parser.HandleNumber | tokenparser.py:72-74 | writes the value unchanged |
| TokenParser.Parser.HandleWhitespace | tokenparser.py:76-82 | stores and writes `WhitespaceText(value)` |
| TokenParser.Parser.Handle | tokenparser.py:32-34 | runs the handler the kind selects |
| TokenParser.Parser.Dispatch | tokenparser.py:29-36 | output, value and outcome are those of `Dispatched` |
| Api.FirstAtLeast | api.py:189-199 | the index of the first entry at least the bound, and all earlier entries are below it |
| Api.FirstIndex | api.py:189-199 | the search loop returns `FirstAtLeast` |
| Api.Top | api.py:209-212 | the end of the two-digit run: the first number ≥ 100, or the length |
| Api.FlattenChunks | api.py:214-227 | cutting into runs of 50 loses and adds nothing |
| Api.ChunksSizes | api.py:214-227 | every run has 1 to 50 numbers and there are `ceil(n/50)` runs |
| Api.GroupsFlatten | api.py:179-245 | the groups, concatenated, are the page list |
| Api.GroupsSmall | api.py:202-204 | a list with no number ≥ 10 is one group |
| Api.GroupsPrefix | api.py:205-206 | the one-digit prefix, when present, is the first group |
| Api.GroupsRuns | api.py:205-243 | the group count is prefix + ceil(two-digit/50) + ceil(rest/50), and every group after the prefix has 1 to 50 numbers |
| Api.GroupsBands | api.py:180-185 | for a sorted list, each group's numbers have the same digit band (<10, 10-99, ≥100) |
| Api.GroupsFit | api.py:180-185 | for a strictly increasing non-negative list, every group has at most 50 numbers |
| Api.Runs | api.py:214-243 | the nested run loops produce `Chunks` of the slice |
| Api.SplitCalls | api.py:179-245 | the method returns `Groups(pagelist)` |
| Api.TitleList | api.py:101-102 | one `Page:file/n` title per number |
| Api.Urls | api.py:98-106 | one API URL per group, holding that group's titles |
| Api.BarredTitles | api.py:101-102 | the bar-terminated titles are the joined titles plus a bar |
| Api.CutBar | api.py:103 | `titles[:-1]` is the bar-joined titles |
| Api.TitleNoBar | api.py:102 | a title of a bar-free file holds no bar |
| Api.TitlesRoundTrip | api.py:101-103 | splitting the titles parameter at bars gives the titles back |
| Api.Requests | api.py:98-106 | the loop builds `Urls(file, groups)` |
| Api.Document.constructor | api.py:33-40 | an empty page dictionary |
| Api.Document.FormCall | api.py:87-106 | KeyError on an empty dictionary; otherwise the first entry is removed and its numbers become one URL per group, or IndexError when it holds no file name |

## Left out

- Lexer: `tokenizer.py`, `wsparser.py`, `core.py` and `regex.py` (the lexer, driver and patterns) are not part of this model.
  - Tokens arrive as a list of (kind, value) pairs.
  - Exceptions from `exceptions.py` appear as error values carrying the exception's name.
- Input and output:
  - printing and logging are left out;
  - the output file is modelled as a string that `write` appends to;
  - `ProgressChecker.get_statistics` only prints, and is left out.
- Network and persistence: `Document.call` and `Document.organize` (network and pickle files) are left out, and so are the `prefix`, `directory` and `logger` fields of `Document.__init__`.
- `urllib.parse.quote` is a function parameter of `Document`.
- `Document.pages` is an ordered dictionary, modelled as a sequence of (title, page list) pairs.
- Api.Document.FormCall: the page list is `IndexList`, either `Empty` or a file name followed by numbers. Page numbers are integers; the `int(page)` conversion of strings is not modelled.
- Api.Requests: the URL-forming loop of `form_call` is its own method; `FormCall` calls it.
- Api.Runs: one method models both run loops of `split_calls` (lines 214-227 and 230-243). They differ only in their end index.
- Api.GroupsFit: the one-digit prefix group is never cut at 50. It stays within the limit only for strictly increasing non-negative lists, and that is the case proved.
- `split_calls` computes `ceil(number/50)` in floating point. The model uses exact integer division, which differs only for counts beyond 2^53.
- Util.ProgressChecker.Page: the level is an integer. `int(level)` on strings is not modelled.
- TokenParser.KindOf: `exec('self.<kind>()')` is modelled for three cases:
  - the five basic handlers;
  - the seven attributes of `Parser` that raise TypeError when called without arguments;
  - everything else, which raises AttributeError (caught) and writes nothing.
- Other attribute names, such as inherited dunder methods, are not modelled, and neither are kinds that are not Python identifiers. `exec` could raise SyntaxError for those or run arbitrary code.
- TokenParser.Lower: only ASCII letters are lowered. Non-ASCII case mapping of `str.lower` is not modelled.
- Regular expressions:
  - `\d` is restricted to the ASCII digits; Python's Unicode decimal digits are not modelled. `\s` is the full set of characters for which `str.isspace()` holds;
  - only the eight patterns used by `sub`, `left`, `Cell.parse` and `TOC.parse` are modelled, as direct scanners.
- Toc.PageNumberAt: `'\\hfill \g<num>'` at toc.py:125 is treated as in older Python, where the unknown escape `\h` is kept literally. Python 3.7 and later raise `re.error` on it instead.
- Toc.TOC.Parse: when a row raises IndexError, the model stops there like the source. State already changed by earlier rows is kept, as in the source.
- `TOCError` (toc.py:118) cannot occur, because the pattern at line 114 always matches. The model has no such branch.
- Toc.TOC.MakeProps: missing levels other than 1 are printed and skipped. A missing level 1 raises UnboundLocalError, because `val` is still unbound.
- Wikitable.Table.End: `rows` keeps a reference to the same list object as `row_entries`. The model stores a copy, so this aliasing is not modelled.
- Wikitable.Table.SetWidth:
  - the width is an integer percentage; non-integer widths are not modelled;
  - `round` and float printing are modelled on exact hundredths;
  - binary floating-point rounding of `w/100` is not modelled.
- The `Cell.table` back reference and the unused format fields are kept as data only.
- Reparse.Traverse: the printing loop after the bracket check only prints, and is left out.
