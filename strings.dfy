/**
 * The Python `str` operations the converter relies on, with CPython's
 * semantics written out: `find` with start/end arguments, `in`, `replace`,
 * `split`, `join`, slicing with negative indexes and `str(int)`.
 */
module Strings {

  datatype Option<+T> = None | Some(value: T)

  datatype Result<+T, +E> = Ok(value: T) | Err(error: E)

  datatype Outcome<+E> = Pass | Fail(error: E)

  /** `sub` occurs in `s` starting at index `j`. */
  predicate OccursAt(s: string, sub: string, j: int)
  {
    0 <= j && j + |sub| <= |s| && s[j..j + |sub|] == sub
  }

  /** CPython's ADJUST_INDICES for the start argument of `str.find`. */
  function FindStart(start: int, n: nat): nat
  {
    if start >= 0 then start else if start + n >= 0 then start + n else 0
  }

  /** CPython's ADJUST_INDICES for the end argument of `str.find`. */
  function FindEnd(end: int, n: nat): (e: nat)
    ensures e <= n
  {
    if end > n then n else if end >= 0 then end else if end + n >= 0 then end + n else 0
  }

  /** The first occurrence of `sub` at an index `>= i` that ends by `en`, or -1. */
  function FirstFrom(s: string, sub: string, i: nat, en: nat): (r: int)
    requires en <= |s|
    ensures r == -1 || (i <= r && r + |sub| <= en && OccursAt(s, sub, r))
    ensures forall j :: i <= j && j + |sub| <= en && (r == -1 || j < r) ==> !OccursAt(s, sub, j)
    decreases en - i
  {
    if i + |sub| > en then -1
    else if s[i..i + |sub|] == sub then i
    else FirstFrom(s, sub, i + 1, en)
  }

  /** `s.find(sub, start, end)`: the lowest index of `sub` inside the adjusted window, or -1. */
  function Find(s: string, sub: string, start: int, end: int): (r: int)
    ensures r == -1 || (FindStart(start, |s|) <= r && r + |sub| <= FindEnd(end, |s|) && OccursAt(s, sub, r))
    ensures forall j :: FindStart(start, |s|) <= j && j + |sub| <= FindEnd(end, |s|) && (r == -1 || j < r)
                        ==> !OccursAt(s, sub, j)
  {
    var st, en := FindStart(start, |s|), FindEnd(end, |s|);
    if en < st + |sub| then -1 else FirstFrom(s, sub, st, en)
  }

  /** `s.find(sub)`. */
  function Index(s: string, sub: string): int
  {
    Find(s, sub, 0, |s|)
  }

  /** `sub in s`. */
  predicate Contains(s: string, sub: string)
  {
    Index(s, sub) != -1
  }

  lemma {:induction false} ContainsIff(s: string, sub: string)
    ensures Contains(s, sub) <==> exists j :: OccursAt(s, sub, j)
  {
    if exists j :: OccursAt(s, sub, j) {
      var j :| OccursAt(s, sub, j);
      assert FindStart(0, |s|) <= j && j + |sub| <= FindEnd(|s|, |s|);
    }
  }

  /** An occurrence of a longer pattern is an occurrence of each of its prefixes. */
  lemma {:induction false} OccursPrefix(s: string, sub: string, pre: string, j: int)
    requires OccursAt(s, sub, j) && |pre| <= |sub| && sub[..|pre|] == pre
    ensures OccursAt(s, pre, j)
  {
    assert s[j..j + |pre|] == s[j..j + |sub|][..|pre|];
  }

  /** Python slice-index normalisation: negative indexes count from the end, then clamp. */
  function SliceIndex(i: int, n: nat): (k: nat)
    ensures k <= n
  {
    if i < 0 then (if i + n < 0 then 0 else i + n) else if i > n then n else i
  }

  /** `s[a:b]` with Python semantics. */
  function Slice(s: string, a: int, b: int): string
  {
    var lo, hi := SliceIndex(a, |s|), SliceIndex(b, |s|);
    if hi <= lo then [] else s[lo..hi]
  }

  /** `s.replace(pat, rep)`: leftmost, non-overlapping occurrences. */
  function Replace(s: string, pat: string, rep: string): string
    requires |pat| > 0
    decreases |s|
  {
    if |s| < |pat| then s
    else if s[..|pat|] == pat then rep + Replace(s[|pat|..], pat, rep)
    else [s[0]] + Replace(s[1..], pat, rep)
  }

  lemma {:induction false} ReplaceAbsent(s: string, pat: string, rep: string)
    requires |pat| > 0
    requires forall j :: !OccursAt(s, pat, j)
    ensures Replace(s, pat, rep) == s
    decreases |s|
  {
    if |s| >= |pat| {
      assert !OccursAt(s, pat, 0);
      forall j ensures !OccursAt(s[1..], pat, j) {
        if OccursAt(s[1..], pat, j) {
          assert s[1..][j..j + |pat|] == s[j + 1..j + 1 + |pat|];
          assert OccursAt(s, pat, j + 1);
        }
      }
      ReplaceAbsent(s[1..], pat, rep);
    }
  }

  /** `str.replace` brings in no character that is neither in the text nor in the replacement. */
  lemma {:induction false} ReplaceChars(s: string, pat: string, rep: string, c: char)
    requires |pat| > 0 && c in Replace(s, pat, rep)
    ensures c in s || c in rep
    decreases |s|
  {
    if |s| >= |pat| {
      var k := if s[..|pat|] == pat then |pat| else 1;
      var head := if s[..|pat|] == pat then rep else [s[0]];
      assert Replace(s, pat, rep) == head + Replace(s[k..], pat, rep);
      if c !in head {
        assert c in Replace(s[k..], pat, rep);
        ReplaceChars(s[k..], pat, rep, c);
        if c in s[k..] {
          var i :| 0 <= i < |s[k..]| && s[k..][i] == c;
          assert s[k + i] == c;
        }
      }
    }
  }

  /** A replacement table: each listed character maps to its replacement text. */
  type Table = seq<(char, string)>

  /** The replacement of `c` under the first entry of `t` that lists it; `c` itself otherwise. */
  function Lookup(t: Table, c: char): string
  {
    if t == [] then [c] else if t[0].0 == c then t[0].1 else Lookup(t[1..], c)
  }

  /** The image of `s` under the per-character map `Lookup(t, _)`. */
  function Image(s: string, t: Table): string
  {
    if s == [] then [] else Lookup(t, s[0]) + Image(s[1..], t)
  }

  /** `s.replace(t[0].0, t[0].1).replace(t[1].0, t[1].1)...` in order. */
  function ReplaceChain(s: string, t: Table): string
    decreases |t|
  {
    if t == [] then s else ReplaceChain(Replace(s, [t[0].0], t[0].1), t[1..])
  }

  /** No replacement text of an entry contains a character that a later entry replaces. */
  ghost predicate Sequential(t: Table)
  {
    forall i, j :: 0 <= i < j < |t| ==> t[j].0 !in t[i].1
  }

  lemma {:induction false} ImageConcat(a: string, b: string, t: Table)
    ensures Image(a + b, t) == Image(a, t) + Image(b, t)
    decreases |a|
  {
    if a != [] {
      assert (a + b)[1..] == a[1..] + b;
      ImageConcat(a[1..], b, t);
    } else {
      assert a + b == b;
    }
  }

  lemma {:induction false} LookupAbsent(t: Table, c: char)
    requires forall k :: 0 <= k < |t| ==> t[k].0 != c
    ensures Lookup(t, c) == [c]
    decreases |t|
  {
    if t != [] {
      LookupAbsent(t[1..], c);
    }
  }

  /** A character either is listed by no entry and maps to itself, or maps to the text of an entry that lists it. */
  lemma {:induction false} LookupCases(t: Table, c: char)
    ensures (Lookup(t, c) == [c] && forall k :: 0 <= k < |t| ==> t[k].0 != c)
            || (exists k :: 0 <= k < |t| && t[k].0 == c && Lookup(t, c) == t[k].1)
    decreases |t|
  {
    if t != [] && t[0].0 != c {
      var rest := t[1..];
      LookupCases(rest, c);
      if exists k :: 0 <= k < |rest| && rest[k].0 == c && Lookup(rest, c) == rest[k].1 {
        var k :| 0 <= k < |rest| && rest[k].0 == c && Lookup(rest, c) == rest[k].1;
        assert t[k + 1] == rest[k];
      } else {
        forall k | 1 <= k < |t| ensures t[k].0 != c {
          assert t[k] == rest[k - 1];
        }
      }
    }
  }

  /** Characters that no entry replaces are left alone. */
  lemma {:induction false} ImageIdentity(s: string, t: Table)
    requires forall k :: 0 <= k < |t| ==> t[k].0 !in s
    ensures Image(s, t) == s
    decreases |s|
  {
    if s != [] {
      LookupAbsent(t, s[0]);
      ImageIdentity(s[1..], t);
    }
  }

  /** Replacing a single character is the per-character image under a one-entry table. */
  lemma {:induction false} ReplaceCharIsImage(s: string, c: char, r: string)
    ensures Replace(s, [c], r) == Image(s, [(c, r)])
    decreases |s|
  {
    if s != [] {
      assert s[..1] == [s[0]];
      ReplaceCharIsImage(s[1..], c, r);
      if s[0] != c {
        assert [(c, r)][1..] == [];
        assert Lookup([(c, r)], s[0]) == [s[0]];
      }
    }
  }

  /** Mapping `c0` first and the rest of the table afterwards is one pass over the whole table. */
  lemma {:induction false} ImageCompose(s: string, c0: char, r0: string, t: Table)
    requires forall k :: 0 <= k < |t| ==> t[k].0 !in r0
    ensures Image(Image(s, [(c0, r0)]), t) == Image(s, [(c0, r0)] + t)
    decreases |s|
  {
    if s != [] {
      var whole := [(c0, r0)] + t;
      assert whole[1..] == t;
      ImageConcat(Lookup([(c0, r0)], s[0]), Image(s[1..], [(c0, r0)]), t);
      ImageCompose(s[1..], c0, r0, t);
      if s[0] == c0 {
        ImageIdentity(r0, t);
      } else {
        assert Lookup([(c0, r0)], s[0]) == [s[0]];
        assert Lookup(whole, s[0]) == Lookup(t, s[0]);
        assert [s[0]][1..] == [];
        assert Image([s[0]], t) == Lookup(t, s[0]) + Image([], t);
      }
    }
  }

  /**
   * A chain of single-character replacements in which no replacement text is
   * touched by a later step equals one per-character pass: no text produced by
   * an earlier step is rewritten by a later one.
   */
  lemma {:induction false} ReplaceChainIsImage(s: string, t: Table)
    requires Sequential(t)
    ensures ReplaceChain(s, t) == Image(s, t)
    decreases |t|
  {
    if t == [] {
      ImageIdentity(s, t);
    } else {
      var rest := t[1..];
      assert Sequential(rest) by {
        forall i, j | 0 <= i < j < |rest| ensures rest[j].0 !in rest[i].1 {
          assert t[j + 1].0 !in t[i + 1].1;
        }
      }
      ReplaceChainIsImage(Replace(s, [t[0].0], t[0].1), rest);
      ReplaceCharIsImage(s, t[0].0, t[0].1);
      forall k | 0 <= k < |rest| ensures rest[k].0 !in t[0].1 {
        assert t[k + 1].0 !in t[0].1;
      }
      ImageCompose(s, t[0].0, t[0].1, rest);
      assert [(t[0].0, t[0].1)] + rest == t;
    }
  }

  /** A character that occurs in the image comes from some replacement text or is an unlisted input character. */
  lemma {:induction false} ImageChars(s: string, t: Table, c: char)
    requires c in Image(s, t)
    ensures exists i :: 0 <= i < |s| && c in Lookup(t, s[i])
    decreases |s|
  {
    if c in Lookup(t, s[0]) {
      assert 0 < |s|;
    } else {
      ImageChars(s[1..], t, c);
      var i :| 0 <= i < |s[1..]| && c in Lookup(t, s[1..][i]);
      assert s[1..][i] == s[i + 1];
    }
  }

  /** `s.split(sep)`: the pieces between leftmost non-overlapping occurrences of `sep`. */
  function Split(s: string, sep: string): (r: seq<string>)
    requires |sep| > 0
    ensures |r| >= 1
    decreases |s|
  {
    var j := Index(s, sep);
    if j == -1 then [s] else [s[..j]] + Split(s[j + |sep|..], sep)
  }

  /** `sep.join(ps)`. */
  function Join(ps: seq<string>, sep: string): string
  {
    if ps == [] then "" else if |ps| == 1 then ps[0] else ps[0] + sep + Join(ps[1..], sep)
  }

  /** Splitting and re-joining on the same separator gives the original text back. */
  lemma {:induction false} JoinSplit(s: string, sep: string)
    requires |sep| > 0
    ensures Join(Split(s, sep), sep) == s
    decreases |s|
  {
    var j := Index(s, sep);
    if j != -1 {
      var rest := s[j + |sep|..];
      var ps := Split(rest, sep);
      assert Split(s, sep) == [s[..j]] + ps;
      assert ([s[..j]] + ps)[1..] == ps;
      assert Join([s[..j]] + ps, sep) == s[..j] + sep + Join(ps, sep);
      JoinSplit(rest, sep);
      assert s == s[..j] + sep + rest by {
        assert s[j..j + |sep|] == sep;
      }
    }
  }

  /** No piece of a split contains the separator. */
  lemma {:induction false} SplitPiecesFree(s: string, sep: string)
    requires |sep| > 0
    ensures forall p :: p in Split(s, sep) ==> !Contains(p, sep)
    decreases |s|
  {
    var j := Index(s, sep);
    if j != -1 {
      SplitPiecesFree(s[j + |sep|..], sep);
      var head := s[..j];
      forall k | OccursAt(head, sep, k) ensures OccursAt(s, sep, k) && k < j {
        assert head[k..k + |sep|] == s[k..k + |sep|];
      }
      ContainsIff(head, sep);
    }
  }

  /** Joining pieces free of a one-character separator and splitting again gives the pieces back. */
  lemma {:induction false} SplitJoin(ps: seq<string>, c: char)
    requires |ps| >= 1
    requires forall k :: 0 <= k < |ps| ==> c !in ps[k]
    ensures Split(Join(ps, [c]), [c]) == ps
    decreases |ps|
  {
    var s := Join(ps, [c]);
    if |ps| == 1 {
      CharAbsent(s, c);
    } else {
      var rest := Join(ps[1..], [c]);
      assert s == ps[0] + [c] + rest;
      assert OccursAt(s, [c], |ps[0]|);
      forall k | 0 <= k < |ps[0]| ensures !OccursAt(s, [c], k) {
        assert s[k] == ps[0][k];
      }
      var j := Index(s, [c]);
      assert j == |ps[0]|;
      assert s[..j] == ps[0];
      assert s[j + 1..] == rest;
      SplitJoin(ps[1..], c);
    }
  }

  lemma {:induction false} CharAbsent(s: string, c: char)
    requires c !in s
    ensures forall k :: !OccursAt(s, [c], k)
  {
    forall k | 0 <= k < |s| ensures !OccursAt(s, [c], k) {
      assert s[k..k + 1] == [s[k]];
    }
  }

  /** Concatenation regroups freely; stated once so that long chains of appends need not re-derive it. */
  lemma {:induction false} AppendAssoc<T>(a: seq<T>, b: seq<T>, c: seq<T>)
    ensures a + b + c == a + (b + c)
  {
  }

  /** The decimal digit of `d`. */
  function Digit(d: nat): char
    requires d < 10
  {
    "0123456789"[d]
  }

  /** `str(n)` for a natural number. */
  function NatStr(n: nat): (r: string)
    ensures |r| >= 1
    ensures forall k :: 0 <= k < |r| ==> '0' <= r[k] <= '9'
  {
    if n < 10 then [Digit(n)] else NatStr(n / 10) + [Digit(n % 10)]
  }

  /** `str(n)` for any integer. */
  function IntStr(n: int): string
  {
    if n < 0 then "-" + NatStr(-n) else NatStr(n)
  }

  /** The value of a string of decimal digits. */
  function ParseNat(s: string): nat
    requires forall k :: 0 <= k < |s| ==> '0' <= s[k] <= '9'
  {
    if s == [] then 0 else ParseNat(s[..|s| - 1]) * 10 + (s[|s| - 1] as int - '0' as int)
  }

  /** `str` on a natural number is read back by decimal parsing. */
  lemma {:induction false} ParseNatStr(n: nat)
    ensures ParseNat(NatStr(n)) == n
  {
    if n >= 10 {
      var r := NatStr(n);
      assert r[..|r| - 1] == NatStr(n / 10);
      ParseNatStr(n / 10);
    }
  }
}
