/**
 * wikitable.py: the `Table` and `Cell` builders the parser fills while it
 * walks a wiki table. A table collects finished cells into a pending row and
 * finished rows into its row list; a cell collects its body text and drops
 * popup notes when it is closed.
 */
module Wikitable {
  import opened Strings
  import opened Reparse

  /** The ordered parts of `Table.t`, concatenated in this order into the LaTeX table. */
  datatype TableParts = TableParts(begin: string, width: string, tableSpec: string, hline: string,
                                   tableText: string, end: string)

  /** `Table.format`. */
  datatype Format = Format(border: bool, multicol: bool, colwidth: Option<int>, alignment: string)

  /** `Cell.c_format`. */
  datatype CellFormat = CellFormat(colspan: Option<int>, border: Option<bool>, center: bool)

  const InitialParts := TableParts("\\begin{tabularx}", "", "", "", "", "\\end{tabularx}")
  const InitialFormat := Format(false, false, None, "left")

  // ---------------------------------------------------------------------------
  // Table width
  // ---------------------------------------------------------------------------

  /** The two decimals of a hundredths count, shortest form as `str(float)` prints them: 0 -> "0", 50 -> "5", 25 -> "25". */
  function Hundredths(f: nat): (r: string)
    requires f < 100
    ensures 1 <= |r| <= 2
  {
    if f % 10 == 0 then [Digit(f / 10)] else [Digit(f / 10), Digit(f % 10)]
  }

  /** `str(round(p / 100, 2))` for a non-negative whole percentage `p`. */
  function FloatText(p: nat): string
  {
    NatStr(p / 100) + "." + Hundredths(p % 100)
  }

  /** The value `t['width']` takes after `set_width(p)`. */
  function WidthText(p: int): string
  {
    if p == 100 then "{\\textwidth}"
    else if p < 70 then "{0.7\\textwidth}"
    else "{" + FloatText(p) + "\\textwidth}"
  }

  /** Widths under 70 percent are clamped to what 70 percent gives. */
  lemma {:induction false} WidthClamp(p: int)
    requires p < 70
    ensures WidthText(p) == WidthText(70)
  {
    assert FloatText(70) == "0.7" by {
      assert NatStr(0) == "0";
      assert Hundredths(70) == "7";
    }
  }

  /** The fraction digits read back as hundredths, with no trailing zero after the first digit. */
  lemma {:induction false} HundredthsValue(f: nat)
    requires f < 100
    ensures var h := Hundredths(f);
            (forall k :: 0 <= k < |h| ==> '0' <= h[k] <= '9')
            && (if |h| == 1 then ParseNat(h) * 10 == f else ParseNat(h) == f && h[1] != '0')
  {
    var h := Hundredths(f);
    if f % 10 == 0 {
      assert h[..0] == [];
    } else {
      assert h[..1] == [Digit(f / 10)];
      assert [Digit(f / 10)][..0] == [];
      assert h[1] as int - '0' as int == f % 10;
      assert h[0] as int - '0' as int == f / 10;
      assert ParseNat(h[..1]) == f / 10;
      assert ParseNat(h) == ParseNat(h[..1]) * 10 + f % 10;
    }
  }

  /**
   * The number printed for a width above 70 percent is `p / 100` in decimal:
   * the digits before the point are `p / 100` and the digits after it the
   * hundredths, so the LaTeX width is the requested fraction of the text width.
   */
  lemma {:induction false} FloatTextValue(p: nat)
    ensures var whole := NatStr(p / 100);
            var frac := Hundredths(p % 100);
            FloatText(p) == whole + "." + frac
            && (forall k :: 0 <= k < |frac| ==> '0' <= frac[k] <= '9')
            && ParseNat(whole) * 100 + (if |frac| == 1 then ParseNat(frac) * 10 else ParseNat(frac)) == p
  {
    ParseNatStr(p / 100);
    HundredthsValue(p % 100);
  }

  // ---------------------------------------------------------------------------
  // Table
  // ---------------------------------------------------------------------------

  class Table {
    var t: TableParts
    var rows: seq<seq<string>>
    var rowEntries: seq<string>
    var format: Format

    /** No stored row is empty. */
    ghost predicate Valid()
      reads this
    {
      forall k :: 0 <= k < |rows| ==> rows[k] != []
    }

    constructor ()
      ensures Valid()
      ensures t == InitialParts && format == InitialFormat
      ensures rows == [] && rowEntries == []
    {
      t := InitialParts;
      rows := [];
      rowEntries := [];
      format := InitialFormat;
    }

    /** Table.append_cell: the cell goes at the end of the pending row. */
    method AppendCell(cell: string)
      modifies this`rowEntries
      ensures rowEntries == old(rowEntries) + [cell]
    {
      rowEntries := rowEntries + [cell];
    }

    /** Table.append_row: a non-empty pending row is stored; the pending row is always emptied. */
    method AppendRow()
      requires Valid()
      modifies this`rows, this`rowEntries
      ensures Valid()
      ensures rows == old(rows) + (if old(rowEntries) != [] then [old(rowEntries)] else [])
      ensures rowEntries == []
    {
      if |rowEntries| > 0 {
        rows := rows + [rowEntries];
      }
      rowEntries := [];
    }

    /** Table.end: a non-empty pending row is stored; the pending row itself is kept. */
    method End()
      requires Valid()
      modifies this`rows
      ensures Valid()
      ensures rows == old(rows) + (if rowEntries != [] then [rowEntries] else [])
    {
      if |rowEntries| > 0 {
        rows := rows + [rowEntries];
      }
    }

    /** Table.set_alignment: only the argument `center` changes the alignment. */
    method SetAlignment(a: string)
      modifies this`format
      ensures format == if a == "center" then old(format).(alignment := "center") else old(format)
    {
      if a == "center" {
        format := format.(alignment := "center");
      }
    }

    /** Table.set_width with a whole percentage: only the width part changes. */
    method SetWidth(p: int)
      modifies this`t
      ensures t == old(t).(width := WidthText(p))
    {
      if p == 100 {
        t := t.(width := "{\\textwidth}");
      } else if p < 70 {
        t := t.(width := "{0.7\\textwidth}");
      } else {
        t := t.(width := "{" + FloatText(p) + "\\textwidth}");
      }
    }
  }

  // ---------------------------------------------------------------------------
  // Cell
  // ---------------------------------------------------------------------------

  /** The text of a closed cell: prefix, body without popup notes, suffix. */
  function CellText(cell: seq<string>): string
    requires |cell| == 3
  {
    cell[0] + ReSub(cell[1], PopupNote) + cell[2]
  }

  /** A closed cell whose body holds no popup note is its three parts as written. */
  lemma {:induction false} CellTextPlain(cell: seq<string>)
    requires |cell| == 3 && Free(cell[1], "{{popup")
    ensures CellText(cell) == cell[0] + cell[1] + cell[2]
  {
    ReSubIdentity(cell[1], PopupNote);
  }

  /** A body that is one popup note closes to the note's visible text. */
  lemma {:induction false} CellTextPopup(prefix: string, note: string, text: string, suffix: string)
    requires '|' !in note && '\n' !in note && '}' !in text && '\n' !in text
    ensures CellText([prefix, "{{popup note|" + note + "|" + text + "}}", suffix]) == prefix + text + suffix
  {
    PopupKeepsText(note, text);
  }

  class Cell {
    const table: Table
    var cell: seq<string>
    var rCenter: bool
    var cFormat: CellFormat

    ghost predicate Valid()
      reads this
    {
      |cell| == 3
    }

    constructor (table: Table)
      ensures Valid()
      ensures this.table == table && cell == ["", "", ""]
      ensures !rCenter && cFormat == CellFormat(None, None, false)
    {
      this.table := table;
      cell := ["", "", ""];
      rCenter := false;
      cFormat := CellFormat(None, None, false);
    }

    /** Cell.append: text goes at the end of the body; prefix and suffix are untouched. */
    method Append(text: string)
      requires Valid()
      modifies this`cell
      ensures Valid()
      ensures cell == old(cell)[1 := old(cell)[1] + text]
    {
      cell := cell[1 := cell[1] + text];
    }

    /** Cell.parse: popup notes in the body are replaced by their visible text. */
    method Parse()
      requires Valid()
      modifies this`cell
      ensures Valid()
      ensures cell == old(cell)[1 := ReSub(old(cell)[1], PopupNote)]
    {
      cell := cell[1 := ReSub(cell[1], PopupNote)];
    }

    /** Cell.end: parse, then return the three parts joined. */
    method End() returns (s: string)
      requires Valid()
      modifies this`cell
      ensures Valid()
      ensures cell == old(cell)[1 := ReSub(old(cell)[1], PopupNote)]
      ensures s == CellText(old(cell))
    {
      Parse();
      s := cell[0] + cell[1] + cell[2];
    }

    /** Cell.reset: the three parts are emptied and the colspan cleared; row and other cell flags stay. */
    method Reset()
      modifies this`cell, this`cFormat
      ensures Valid()
      ensures cell == ["", "", ""]
      ensures cFormat == old(cFormat).(colspan := None)
    {
      cell := ["", "", ""];
      cFormat := cFormat.(colspan := None);
    }
  }
}
