/**
 * api.py: how `Document` turns the page numbers of one main page into
 * MediaWiki API requests. `split_calls` cuts the page list into groups the
 * API accepts (at most 50 titles each) and keeps numbers of one, two and
 * three or more digits apart, because the API answers in alphabetical order;
 * `form_call` pops the next main page and builds one request URL per group.
 */
module Api {
  import opened Strings

  /** The largest number of titles one API request may carry. */
  const MaxTitles: nat := 50

  // ---------------------------------------------------------------------------
  // Page groups as values
  // ---------------------------------------------------------------------------

  /** The index of the first page number `>= bound`, if any. */
  function FirstAtLeast(p: seq<int>, bound: int): (r: Option<nat>)
    ensures r.Some? ==> r.value < |p| && p[r.value] >= bound
    ensures r.Some? ==> forall k :: 0 <= k < r.value ==> p[k] < bound
    ensures r.None? ==> forall k :: 0 <= k < |p| ==> p[k] < bound
    decreases |p|
  {
    if p == [] then None
    else if p[0] >= bound then Some(0)
    else match FirstAtLeast(p[1..], bound)
      case None => None
      case Some(k) => Some(k + 1)
  }

  /** Consecutive runs of `MaxTitles` numbers, the last one possibly shorter. */
  function Chunks(s: seq<int>): seq<seq<int>>
    decreases |s|
  {
    if s == [] then []
    else if |s| <= MaxTitles then [s]
    else [s[..MaxTitles]] + Chunks(s[MaxTitles..])
  }

  /** `ceil(n / 50)`. */
  function CeilGroups(n: nat): nat
  {
    (n + MaxTitles - 1) / MaxTitles
  }

  /** Where the numbers `>= 100` begin: the first such index, or the length when there is none. */
  function Top(p: seq<int>): (t: nat)
    ensures t <= |p|
    ensures t < |p| ==> p[t] >= 100
    ensures forall k :: 0 <= k < t ==> p[k] < 100
  {
    match FirstAtLeast(p, 100)
    case None => |p|
    case Some(high) => high
  }

  /** The first group: the numbers before the first one `>= 10`, when there are any. */
  function Prefix(p: seq<int>, low: nat): seq<seq<int>>
    requires low <= |p|
  {
    if low > 0 then [p[..low]] else []
  }

  /**
   * `split_calls(pagelist)` as a value: with no number `>= 10` the list is one
   * group; otherwise the numbers before the first one `>= 10` (when there are
   * any), then runs of 50 up to the first number `>= 100`, then runs of 50 to the end.
   */
  function Groups(p: seq<int>): seq<seq<int>>
  {
    match FirstAtLeast(p, 10)
    case None => [p]
    case Some(low) => Prefix(p, low) + Chunks(p[low..Top(p)]) + Chunks(p[Top(p)..])
  }

  /** All groups laid end to end. */
  function Flatten(gs: seq<seq<int>>): seq<int>
    decreases |gs|
  {
    if gs == [] then [] else gs[0] + Flatten(gs[1..])
  }

  // ---------------------------------------------------------------------------
  // Properties of the groups
  // ---------------------------------------------------------------------------

  lemma {:induction false} FlattenConcat(a: seq<seq<int>>, b: seq<seq<int>>)
    ensures Flatten(a + b) == Flatten(a) + Flatten(b)
    decreases |a|
  {
    if a != [] {
      assert (a + b)[1..] == a[1..] + b;
      FlattenConcat(a[1..], b);
      AppendAssoc(a[0], Flatten(a[1..]), Flatten(b));
    } else {
      assert a + b == b;
    }
  }

  /** The runs of a list laid end to end are the list. */
  lemma {:induction false} FlattenChunks(s: seq<int>)
    ensures Flatten(Chunks(s)) == s
    decreases |s|
  {
    if |s| > MaxTitles {
      FlattenChunks(s[MaxTitles..]);
      assert s[..MaxTitles] + s[MaxTitles..] == s;
    } else if s != [] {
      assert Flatten([s]) == s + [];
    }
  }

  /** Every run holds between 1 and 50 numbers, and there are `ceil(|s| / 50)` of them. */
  lemma {:induction false} ChunksSizes(s: seq<int>)
    ensures forall k :: 0 <= k < |Chunks(s)| ==> 1 <= |Chunks(s)[k]| <= MaxTitles
    ensures |Chunks(s)| == CeilGroups(|s|)
    decreases |s|
  {
    if |s| > MaxTitles {
      ChunksSizes(s[MaxTitles..]);
      var c := Chunks(s);
      forall k | 1 <= k < |c| ensures 1 <= |c[k]| <= MaxTitles {
        assert c[k] == Chunks(s[MaxTitles..])[k - 1];
      }
    }
  }

  /** Every number of a run is a number of the list. */
  lemma {:induction false} ChunksMembers(s: seq<int>, k: nat, i: nat)
    requires k < |Chunks(s)| && i < |Chunks(s)[k]|
    ensures Chunks(s)[k][i] in s
    decreases |s|
  {
    if |s| > MaxTitles && k > 0 {
      ChunksMembers(s[MaxTitles..], k - 1, i);
    }
  }

  /** The first run starts with the first number of the list. */
  lemma {:induction false} ChunksHead(s: seq<int>)
    requires s != []
    ensures Chunks(s) != [] && Chunks(s)[0] != [] && Chunks(s)[0][0] == s[0]
  {
  }

  /** The numbers `>= 10` start no later than the numbers `>= 100`. */
  lemma {:induction false} LowTop(p: seq<int>, low: nat)
    requires FirstAtLeast(p, 10) == Some(low)
    ensures low <= Top(p)
  {
  }

  /** Concatenating the groups gives back the page list exactly, in order. */
  lemma {:induction false} GroupsFlatten(p: seq<int>)
    ensures Flatten(Groups(p)) == p
  {
    var lo := FirstAtLeast(p, 10);
    if lo.None? {
      assert Flatten([p]) == p + [];
    } else {
      var low, top := lo.value, Top(p);
      LowTop(p, low);
      var pre, mid, hi := Prefix(p, low), Chunks(p[low..top]), Chunks(p[top..]);
      assert Groups(p) == pre + mid + hi;
      assert Flatten(pre) == p[..low] by {
        if low > 0 {
          assert Flatten(pre) == p[..low] + [];
        }
      }
      FlattenChunks(p[low..top]);
      FlattenChunks(p[top..]);
      FlattenThree(pre, mid, hi);
      Rejoin(p, low, top);
    }
  }

  lemma {:induction false} FlattenThree(a: seq<seq<int>>, b: seq<seq<int>>, c: seq<seq<int>>)
    ensures Flatten(a + b + c) == Flatten(a) + Flatten(b) + Flatten(c)
  {
    FlattenConcat(a, b);
    FlattenConcat(a + b, c);
  }

  lemma {:induction false} Rejoin(p: seq<int>, i: nat, j: nat)
    requires i <= j <= |p|
    ensures p[..i] + p[i..j] + p[j..] == p
  {
    assert p[..i] + p[i..j] == p[..j];
  }

  /** With no number `>= 10`, all pages go into a single group; an empty list gives `[[]]`. */
  lemma {:induction false} GroupsSmall(p: seq<int>)
    requires forall k :: 0 <= k < |p| ==> p[k] < 10
    ensures Groups(p) == [p]
  {
  }

  /**
   * A first group of numbers below 10 is emitted exactly when the list does
   * not start with a number `>= 10`; it holds all the pages before the first
   * such number, and only those.
   */
  lemma {:induction false} GroupsPrefix(p: seq<int>, low: nat)
    requires FirstAtLeast(p, 10) == Some(low)
    ensures low > 0 ==> Groups(p)[0] == p[..low] && forall k :: 0 <= k < low ==> p[k] < 10
    ensures low == 0 ==> Groups(p)[0][0] >= 10
  {
    var top := Top(p);
    LowTop(p, low);
    var mid, hi := Chunks(p[low..top]), Chunks(p[top..]);
    assert Groups(p) == Prefix(p, low) + mid + hi;
    if low == 0 {
      if low < top {
        ChunksHead(p[low..top]);
        assert Groups(p)[0] == mid[0];
      } else {
        ChunksHead(p[top..]);
        assert Groups(p)[0] == hi[0];
      }
    }
  }

  /**
   * Every group other than a first group of numbers below 10 holds 1 to 50
   * pages; the middle groups are the `ceil(count / 50)` runs from the first
   * number `>= 10` to the first `>= 100`, and the rest start at the first number `>= 100`.
   */
  lemma {:induction false} GroupsRuns(p: seq<int>, low: nat)
    requires FirstAtLeast(p, 10) == Some(low)
    ensures var pre := if low > 0 then 1 else 0;
            low <= Top(p)
            && |Groups(p)| == pre + CeilGroups(Top(p) - low) + CeilGroups(|p| - Top(p))
            && (forall k :: pre <= k < |Groups(p)| ==> 1 <= |Groups(p)[k]| <= MaxTitles)
  {
    var top := Top(p);
    LowTop(p, low);
    var pre, mid, hi := Prefix(p, low), Chunks(p[low..top]), Chunks(p[top..]);
    ChunksSizes(p[low..top]);
    ChunksSizes(p[top..]);
    assert Groups(p) == pre + mid + hi;
    RunsFit(pre, mid, hi);
  }

  /** When the middle and last parts hold only runs of 1 to 50, so does everything after the first part. */
  lemma {:induction false} RunsFit(pre: seq<seq<int>>, mid: seq<seq<int>>, hi: seq<seq<int>>)
    requires forall k :: 0 <= k < |mid| ==> 1 <= |mid[k]| <= MaxTitles
    requires forall k :: 0 <= k < |hi| ==> 1 <= |hi[k]| <= MaxTitles
    ensures forall k :: |pre| <= k < |pre + mid + hi| ==> 1 <= |(pre + mid + hi)[k]| <= MaxTitles
  {
    var g := pre + mid + hi;
    forall k | |pre| <= k < |g| ensures 1 <= |g[k]| <= MaxTitles {
      if k < |pre| + |mid| {
        assert g[k] == mid[k - |pre|];
      } else {
        assert g[k] == hi[k - |pre| - |mid|];
      }
    }
  }

  predicate Ascending(p: seq<int>)
  {
    forall i, j :: 0 <= i < j < |p| ==> p[i] <= p[j]
  }

  /** 0 for one digit, 1 for two digits, 2 for three or more (non-negative numbers). */
  function Band(n: int): nat
  {
    if n < 10 then 0 else if n < 100 then 1 else 2
  }

  /** Every number of `s` lies in band `b`. */
  predicate InBand(s: seq<int>, b: nat)
  {
    forall i :: 0 <= i < |s| ==> Band(s[i]) == b
  }

  /** Runs of a list whose numbers all lie in one band lie in that band. */
  lemma {:induction false} ChunksInBand(s: seq<int>, b: nat)
    requires InBand(s, b)
    ensures forall k :: 0 <= k < |Chunks(s)| ==> InBand(Chunks(s)[k], b)
  {
    forall k, i | 0 <= k < |Chunks(s)| && 0 <= i < |Chunks(s)[k]| ensures Band(Chunks(s)[k][i]) == b {
      ChunksMembers(s, k, i);
    }
  }

  /** No two numbers of `g` lie in different bands. */
  predicate SameBand(g: seq<int>)
  {
    forall i, j :: 0 <= i < j < |g| ==> Band(g[i]) == Band(g[j])
  }

  /** Groups taken from three lists of groups, each list inside one band, never mix bands. */
  lemma {:induction false} PartsBands(pre: seq<seq<int>>, mid: seq<seq<int>>, hi: seq<seq<int>>)
    requires forall k :: 0 <= k < |pre| ==> InBand(pre[k], 0)
    requires forall k :: 0 <= k < |mid| ==> InBand(mid[k], 1)
    requires forall k :: 0 <= k < |hi| ==> InBand(hi[k], 2)
    ensures forall k :: 0 <= k < |pre + mid + hi| ==> SameBand((pre + mid + hi)[k])
  {
    var g := pre + mid + hi;
    forall k | 0 <= k < |g| ensures SameBand(g[k]) {
      if k < |pre| {
        assert InBand(g[k], 0) by { assert g[k] == pre[k]; }
      } else if k < |pre| + |mid| {
        assert InBand(g[k], 1) by { assert g[k] == mid[k - |pre|]; }
      } else {
        assert InBand(g[k], 2) by { assert g[k] == hi[k - |pre| - |mid|]; }
      }
    }
  }

  /**
   * For an ascending list no group mixes numbers of one digit, two digits and
   * three or more, so the API's alphabetical order agrees with numeric order inside each group.
   */
  lemma {:induction false} GroupsBands(p: seq<int>)
    requires Ascending(p)
    ensures forall k :: 0 <= k < |Groups(p)| ==> SameBand(Groups(p)[k])
  {
    var lo := FirstAtLeast(p, 10);
    if lo.None? {
      assert InBand(p, 0);
      assert Groups(p) == [p];
    } else {
      var low, top := lo.value, Top(p);
      SlicesInBands(p, low);
      var pre, mid, hi := Prefix(p, low), Chunks(p[low..top]), Chunks(p[top..]);
      ChunksInBand(p[low..top], 1);
      ChunksInBand(p[top..], 2);
      PartsBands(pre, mid, hi);
      assert Groups(p) == pre + mid + hi;
    }
  }

  /** In an ascending list the three slices `split_calls` cuts lie in the three bands. */
  lemma {:induction false} SlicesInBands(p: seq<int>, low: nat)
    requires Ascending(p) && FirstAtLeast(p, 10) == Some(low)
    ensures low <= Top(p)
    ensures forall k :: 0 <= k < |Prefix(p, low)| ==> InBand(Prefix(p, low)[k], 0)
    ensures InBand(p[low..Top(p)], 1) && InBand(p[Top(p)..], 2)
  {
    var top := Top(p);
    LowTop(p, low);
    assert InBand(p[..low], 0);
    assert InBand(p[low..top], 1) by {
      forall i | low <= i < top ensures Band(p[i]) == 1 {
        assert p[low] <= p[i];
      }
    }
    assert InBand(p[top..], 2) by {
      forall i | top <= i < |p| ensures Band(p[i]) == 2 {
        assert p[top] <= p[i];
      }
    }
  }

  /** For strictly increasing non-negative page numbers the first group also fits: every group holds at most 50 pages. */
  lemma {:induction false} GroupsFit(p: seq<int>)
    requires forall i, j :: 0 <= i < j < |p| ==> 0 <= p[i] < p[j]
    requires |p| > 0 && p[0] >= 0
    ensures forall k :: 0 <= k < |Groups(p)| ==> |Groups(p)[k]| <= MaxTitles
  {
    match FirstAtLeast(p, 10)
    case None =>
      Below(p, 10);
    case Some(low) =>
      GroupsRuns(p, low);
      if low > 0 {
        Below(p[..low], 10);
      }
  }

  /** Strictly increasing non-negative numbers below `bound` number at most `bound`. */
  lemma {:induction false} Below(s: seq<int>, bound: nat)
    requires forall i, j :: 0 <= i < j < |s| ==> 0 <= s[i] < s[j]
    requires forall i :: 0 <= i < |s| ==> 0 <= s[i] < bound
    ensures |s| <= bound
    decreases |s|
  {
    if |s| > 1 {
      var init := s[..|s| - 1];
      forall i | 0 <= i < |init| ensures 0 <= init[i] < s[|s| - 1] {
        assert init[i] == s[i];
      }
      Below(init, s[|s| - 1]);
      assert |init| <= s[|s| - 1] < bound;
    } else if |s| == 1 {
      assert 0 <= s[0] < bound;
    }
  }

  // ---------------------------------------------------------------------------
  // split_calls
  // ---------------------------------------------------------------------------

  /** One `for idx, page in enumerate(pagelist)` search of `split_calls`. */
  method FirstIndex(p: seq<int>, bound: int) returns (r: Option<nat>)
    ensures r == FirstAtLeast(p, bound)
  {
    var idx := 0;
    while idx < |p|
      invariant 0 <= idx <= |p|
      invariant forall k :: 0 <= k < idx ==> p[k] < bound
    {
      if p[idx] >= bound {
        return Some(idx);
      }
      idx := idx + 1;
    }
    return None;
  }

  /**
   * The run lengths the `ceil(number / 50)` loop takes: every round but the
   * last takes 50 pages and leaves some over; the last takes what is left, at most 50.
   */
  lemma {:induction false} RunLength(from: nat, top: nat, i: nat, first: nat)
    requires from <= top && i < CeilGroups(top - from) && first == from + MaxTitles * i
    ensures var range := if i == CeilGroups(top - from) - 1 then top - first else MaxTitles;
            first < top
            && range == (if top - first <= MaxTitles then top - first else MaxTitles)
            && first + range == if i + 1 == CeilGroups(top - from) then top else from + MaxTitles * (i + 1)
  {
  }

  /** One round of the run loop: the next run is split off the remaining range. */
  lemma {:induction false} ChunkStep(done: seq<seq<int>>, p: seq<int>, first: nat, top: nat, range: nat, whole: seq<seq<int>>)
    requires first < top <= |p| && done + Chunks(p[first..top]) == whole
    requires range == if top - first <= MaxTitles then top - first else MaxTitles
    ensures (done + [p[first..first + range]]) + Chunks(p[first + range..top]) == whole
  {
    var s := p[first..top];
    var run, rest := p[first..first + range], p[first + range..top];
    if |s| > MaxTitles {
      assert s[..MaxTitles] == run;
      assert s[MaxTitles..] == rest;
      assert Chunks(s) == [run] + Chunks(rest);
    } else {
      assert run == s && rest == [];
      assert Chunks(s) == [run] + Chunks(rest);
    }
    AppendAssoc(done, [run], Chunks(rest));
  }

  /**
   * One of the two run loops of `split_calls`: `ceil(number / 50)` sublists,
   * each filled page by page, 50 pages each except the last, which takes what is left.
   */
  method Runs(p: seq<int>, from: nat, top: nat) returns (groups: seq<seq<int>>)
    requires from <= top <= |p|
    ensures groups == Chunks(p[from..top])
  {
    var number := top - from;
    var listCount := CeilGroups(number);
    var firstIndex := from;
    groups := [];
    ghost var whole := Chunks(p[from..top]);
    for i := 0 to listCount
      invariant firstIndex == if i == listCount then top else from + MaxTitles * i
      invariant from <= firstIndex <= top
      invariant groups + Chunks(p[firstIndex..top]) == whole
    {
      RunLength(from, top, i, firstIndex);
      var pageRange := if i == listCount - 1 then top - firstIndex else MaxTitles;
      var sublist := [];
      for j := 0 to pageRange
        invariant sublist == p[firstIndex..firstIndex + j]
      {
        sublist := sublist + [p[firstIndex + j]];
      }
      ChunkStep(groups, p, firstIndex, top, pageRange, whole);
      firstIndex := firstIndex + pageRange;
      groups := groups + [sublist];
    }
    assert p[firstIndex..top] == [];
    assert groups + [] == groups;
  }

  /** Document.split_calls */
  method SplitCalls(pagelist: seq<int>) returns (splitlist: seq<seq<int>>)
    ensures splitlist == Groups(pagelist)
  {
    splitlist := [];
    var lowIndex := FirstIndex(pagelist, 10);
    var highIndex := FirstIndex(pagelist, 100);
    if lowIndex.None? {
      splitlist := splitlist + [pagelist];
      assert splitlist == Groups(pagelist);
      return;
    } else if lowIndex.value > 0 {
      splitlist := splitlist + [pagelist[..lowIndex.value]];
    }
    var low := lowIndex.value;
    assert splitlist == Prefix(pagelist, low);
    var top := if highIndex.None? then |pagelist| else highIndex.value;
    assert top == Top(pagelist);
    LowTop(pagelist, low);
    var middle := Runs(pagelist, low, top);
    splitlist := splitlist + middle;
    if highIndex.Some? {
      var high := Runs(pagelist, top, |pagelist|);
      assert pagelist[top..|pagelist|] == pagelist[top..];
      splitlist := splitlist + high;
    } else {
      assert pagelist[top..] == [];
      assert Chunks(pagelist[top..]) == [];
      assert splitlist + [] == splitlist;
    }
    assert splitlist == Prefix(pagelist, low) + Chunks(pagelist[low..top]) + Chunks(pagelist[top..]);
  }

  // ---------------------------------------------------------------------------
  // form_call
  // ---------------------------------------------------------------------------

  /** The API request template around its `{0}`. */
  const ApiHead: string := "http://en.wikisource.org/w/api.php?format=txt&action=query&titles="
  const ApiTail: string := "&prop=revisions&rvprop=content"

  /** `self.api.format(titles)`. */
  function ApiUrl(titles: string): string
  {
    ApiHead + titles + ApiTail
  }

  /** The title of one scanned page: `Page:<file>/<n>`. */
  function Title(file: string, n: int): string
  {
    "Page:" + file + "/" + IntStr(n)
  }

  function TitleList(file: string, g: seq<int>): (ts: seq<string>)
    ensures |ts| == |g|
    ensures forall k :: 0 <= k < |g| ==> ts[k] == Title(file, g[k])
    decreases |g|
  {
    if g == [] then [] else [Title(file, g[0])] + TitleList(file, g[1..])
  }

  /** The `titles` parameter of one request: the group's titles joined by `|`. */
  function Titles(file: string, g: seq<int>): string
  {
    Join(TitleList(file, g), "|")
  }

  /** One URL per group, in group order. */
  function Urls(file: string, groups: seq<seq<int>>): (us: seq<string>)
    ensures |us| == |groups|
    ensures forall k :: 0 <= k < |groups| ==> us[k] == ApiUrl(Titles(file, groups[k]))
    decreases |groups|
  {
    if groups == [] then [] else [ApiUrl(Titles(file, groups[0]))] + Urls(file, groups[1..])
  }

  /** What the inner loop of `form_call` accumulates: each title followed by `|`. */
  function Barred(file: string, g: seq<int>): string
    decreases |g|
  {
    if g == [] then "" else Barred(file, g[..|g| - 1]) + (Title(file, g[|g| - 1]) + "|")
  }

  /** One round of the inner loop of `form_call`: the next title and a `|` are appended. */
  lemma {:induction false} BarredStep(file: string, g: seq<int>, j: nat)
    requires j < |g|
    ensures Barred(file, g[..j + 1]) == Barred(file, g[..j]) + ("Page:" + file + "/" + IntStr(g[j]) + "|")
  {
    assert g[..j + 1][..j] == g[..j];
  }

  /** One round of the outer loop of `form_call`: the next group's URL is appended. */
  lemma {:induction false} UrlsStep(file: string, groups: seq<seq<int>>, g: nat)
    requires g < |groups|
    ensures Urls(file, groups[..g + 1]) == Urls(file, groups[..g]) + [ApiUrl(Titles(file, groups[g]))]
  {
    var a, b := Urls(file, groups[..g + 1]), Urls(file, groups[..g]) + [ApiUrl(Titles(file, groups[g]))];
    forall k | 0 <= k <= g ensures a[k] == b[k] {
      if k < g {
        assert groups[..g + 1][k] == groups[..g][k];
      }
    }
  }

  lemma {:induction false} JoinSnoc(ps: seq<string>, q: string, sep: string)
    requires ps != []
    ensures Join(ps + [q], sep) == Join(ps, sep) + sep + q
    decreases |ps|
  {
    if |ps| == 1 {
      assert ps + [q] == [ps[0], q];
    } else {
      assert (ps + [q])[1..] == ps[1..] + [q];
      JoinSnoc(ps[1..], q, sep);
    }
  }

  lemma {:induction false} TitleListSnoc(file: string, g: seq<int>)
    requires g != []
    ensures TitleList(file, g) == TitleList(file, g[..|g| - 1]) + [Title(file, g[|g| - 1])]
  {
    var init := g[..|g| - 1];
    var a, b := TitleList(file, g), TitleList(file, init) + [Title(file, g[|g| - 1])];
    assert |a| == |b|;
    forall k | 0 <= k < |g| ensures a[k] == b[k] {
      if k < |g| - 1 {
        assert init[k] == g[k];
        assert b[k] == TitleList(file, init)[k];
      }
    }
  }

  /** The accumulated titles are the joined titles plus one trailing `|`. */
  lemma {:induction false} BarredTitles(file: string, g: seq<int>)
    requires g != []
    ensures Barred(file, g) == Titles(file, g) + "|"
    decreases |g|
  {
    var init := g[..|g| - 1];
    var last := Title(file, g[|g| - 1]);
    TitleListSnoc(file, g);
    if init == [] {
      assert TitleList(file, g) == [last];
    } else {
      BarredTitles(file, init);
      JoinSnoc(TitleList(file, init), last, "|");
      AppendAssoc(Titles(file, init) + "|", last, "|");
    }
  }

  /** `titles[:-1]` drops the trailing `|`; for an empty group there is nothing to drop. */
  lemma {:induction false} CutBar(file: string, g: seq<int>)
    ensures Slice(Barred(file, g), 0, -1) == Titles(file, g)
  {
    if g != [] {
      BarredTitles(file, g);
      var t := Titles(file, g);
      assert (t + "|")[..|t|] == t;
    }
  }

  /** No title of a file name without `|` contains `|`. */
  lemma {:induction false} TitleNoBar(file: string, n: int)
    requires '|' !in file
    ensures '|' !in Title(file, n)
  {
    var t := Title(file, n);
    var digits := NatStr(if n < 0 then -n else n);
    assert '|' !in digits;
    assert t == "Page:" + file + "/" + IntStr(n);
  }

  /** The request's titles split at `|` give back the group's page titles, one per page, in order. */
  lemma {:induction false} TitlesRoundTrip(file: string, g: seq<int>)
    requires '|' !in file && g != []
    ensures Split(Titles(file, g), "|") == TitleList(file, g)
  {
    var ts := TitleList(file, g);
    forall k | 0 <= k < |ts| ensures '|' !in ts[k] {
      TitleNoBar(file, g[k]);
    }
    SplitJoin(ts, '|');
  }

  /** The loops of `form_call` that build one request URL per group. */
  method Requests(filename: string, groups: seq<seq<int>>) returns (apiCalls: seq<string>)
    ensures apiCalls == Urls(filename, groups)
  {
    var titles := "";
    apiCalls := [];
    for g := 0 to |groups|
      invariant titles == ""
      invariant apiCalls == Urls(filename, groups[..g])
    {
      var group := groups[g];
      for j := 0 to |group|
        invariant titles == Barred(filename, group[..j])
      {
        BarredStep(filename, group, j);
        titles := titles + ("Page:" + filename + "/" + IntStr(group[j]) + "|");
      }
      assert group[..|group|] == group;
      CutBar(filename, group);
      titles := Slice(titles, 0, -1);
      UrlsStep(filename, groups, g);
      apiCalls := apiCalls + [ApiUrl(titles)];
      titles := "";
    }
    assert groups[..|groups|] == groups;
  }

  /** The page list of one main page: `[index file, n1, n2, ...]`, or an empty list. */
  datatype IndexList = Empty | Indexed(file: string, numbers: seq<int>)

  /** What `form_call` returns for the popped page list, or the exception it raises. */
  function CallsFor(entry: IndexList, quote: string -> string): Result<seq<string>, string>
  {
    match entry
    case Empty => Err("IndexError")
    case Indexed(file, numbers) => Ok(Urls(quote(file), Groups(numbers)))
  }

  class Document {
    /** `urllib.parse.quote`, which is not part of this model. */
    const quote: string -> string
    /** The ordered dictionary from main-page titles to their page lists. */
    var pages: seq<(string, IndexList)>

    constructor (quote: string -> string)
      ensures this.quote == quote && pages == []
    {
      this.quote := quote;
      pages := [];
    }

    /**
     * Document.form_call: the first main page leaves the dictionary (KeyError
     * when it is empty); its first entry names the file and the numbers after it
     * become one request per group of `split_calls`.
     */
    method FormCall() returns (r: Result<seq<string>, string>)
      modifies this`pages
      ensures old(pages) == [] ==> r == Err("KeyError") && pages == []
      ensures old(pages) != [] ==> pages == old(pages)[1..] && r == CallsFor(old(pages)[0].1, quote)
    {
      if pages == [] {
        return Err("KeyError");
      }
      var currentPage := pages[0];
      pages := pages[1..];
      if currentPage.1.Empty? {
        return Err("IndexError");
      }
      var filename := quote(currentPage.1.file);
      var groups := SplitCalls(currentPage.1.numbers);
      var apiCalls := Requests(filename, groups);
      r := Ok(apiCalls);
    }
  }
}
