/**
 * Counting the page tables that a set of mapped address intervals needs under
 * 4-level paging: a 36-bit page number is four 9-bit indices, and each table of
 * a level serves the pages that agree on the indices above it.
 */
module PageTables {
  import opened Collections

  const SIZE1 := 512
  const SIZE2 := 512 * 512
  const SIZE3 := 512 * 512 * 512
  const PAGES := 512 * 512 * 512 * 512

  /** A line of the maps file: the virtual addresses from `begin` up to `end`. */
  datatype Interval = Interval(begin: nat, end: nat)

  ghost predicate Covers(iv: Interval, page: int) {
    iv.begin / 4096 <= page < iv.end / 4096
  }

  ghost function PagesOf(iv: Interval): set<int> {
    set page | iv.begin / 4096 <= page < iv.end / 4096 && Covers(iv, page)
  }

  ghost function Covered(intervals: seq<Interval>): set<int> {
    if intervals == [] then {}
    else Covered(intervals[..|intervals| - 1]) + PagesOf(intervals[|intervals| - 1])
  }

  /** The first 9, 18 or 27 bits of the 36-bit page number. */
  function Prefix(level: nat, page: nat): nat {
    match level
    case 1 => page % PAGES / SIZE3
    case 2 => page % PAGES / SIZE2
    case _ => page % PAGES / SIZE1
  }

  /** The prefixes that occur: one table each. */
  ghost function Prefixes(level: nat, pages: set<int>): set<int> {
    set page: int | page in pages && page >= 0 :: Prefix(level, page)
  }

  function Size(level: nat): nat {
    match level
    case 1 => SIZE1
    case 2 => SIZE2
    case _ => SIZE3
  }

  /** Where the table of a prefix is recorded; the last level swaps its two upper indices. */
  function Slot(level: nat, p: nat): nat {
    match level
    case 1 => p
    case 2 => p
    case _ => p / SIZE2 * SIZE1 + p / SIZE1 % SIZE1 * SIZE2 + p % SIZE1
  }

  lemma PrefixInRange(level: nat, page: nat)
    requires 1 <= level <= 3
    ensures Prefix(level, page) < Size(level)
  {
  }

  /** Three 9-bit digits can be read back from their number. */
  lemma Digits(hi: nat, mid: nat, lo: nat)
    requires hi < SIZE1 && mid < SIZE1 && lo < SIZE1
    ensures var s := hi * SIZE2 + mid * SIZE1 + lo;
      s < SIZE3 && s / SIZE2 == hi && s / SIZE1 % SIZE1 == mid && s % SIZE1 == lo
  {
    var s := hi * SIZE2 + mid * SIZE1 + lo;
    assert s / SIZE1 == hi * SIZE1 + mid;
  }

  lemma SwapIsInvolution(p: nat)
    requires p < SIZE3
    ensures Slot(3, p) < SIZE3 && Slot(3, Slot(3, p)) == p
  {
    var hi, mid, lo := p / SIZE2, p / SIZE1 % SIZE1, p % SIZE1;
    assert p == hi * SIZE2 + mid * SIZE1 + lo;
    assert hi < SIZE1;
    Digits(mid, hi, lo);
  }

  /** Different prefixes have different slots, all within the table. */
  lemma SlotsAreDistinct(level: nat, p: nat, q: nat)
    requires 1 <= level <= 3 && p < Size(level) && q < Size(level)
    ensures Slot(level, p) < Size(level)
    ensures Slot(level, p) == Slot(level, q) ==> p == q
  {
    if level == 3 {
      SwapIsInvolution(p);
      SwapIsInvolution(q);
    }
  }

  /** Only the low 36 bits of a page number matter for its indices. */
  lemma PtIndex(high: nat, r: nat)
    requires r < PAGES
    ensures (high * PAGES + r) / 0x800_0000 % 512 == r / 0x800_0000
  {
    assert (high * PAGES + r) / 0x800_0000 == high * 512 + r / 0x800_0000;
  }

  lemma PdIndex(high: nat, r: nat)
    requires r < PAGES
    ensures (high * PAGES + r) / 0x4_0000 % 512 == r / 0x4_0000 % 512
  {
    assert (high * PAGES + r) / 0x4_0000 == (high * 512) * 512 + r / 0x4_0000;
  }

  lemma PdptIndex(high: nat, r: nat)
    requires r < PAGES
    ensures (high * PAGES + r) / 512 % 512 == r / 512 % 512
  {
    assert (high * PAGES + r) / 512 == (high * 0x4_0000) * 512 + r / 512;
  }

  lemma SlotsOfPage(r: nat)
    requires r < PAGES
    ensures r / 0x800_0000 == Slot(1, r / SIZE3)
    ensures r / 0x800_0000 * 512 + r / 0x4_0000 % 512 == Slot(2, r / SIZE2)
    ensures r / 0x800_0000 * 512 + r / 0x4_0000 % 512 * 0x4_0000 + r / 512 % 512 == Slot(3, r / SIZE1)
  {
  }

  /** The indices that the program extracts are those of the prefixes. */
  lemma IndicesArePrefixes(i: nat)
    ensures
      var pdpt, pd, pt := i / 512 % 512, i / 0x4_0000 % 512, i / 0x800_0000 % 512;
      && pt == Slot(1, Prefix(1, i))
      && pt * 512 + pd == Slot(2, Prefix(2, i))
      && pt * 512 + pd * 0x4_0000 + pdpt == Slot(3, Prefix(3, i))
  {
    var high, r := i / PAGES, i % PAGES;
    assert i == high * PAGES + r;
    PtIndex(high, r);
    PdIndex(high, r);
    PdptIndex(high, r);
    SlotsOfPage(r);
    hide Slot;
  }

  // ----- counting -------------------------------------------------------------------------

  /** The table marks exactly the slots of the prefixes of `pages`. */
  ghost predicate Records(level: nat, table: seq<bool>, pages: set<int>) {
    && |table| == Size(level)
    && forall p: nat :: p < Size(level) && Slot(level, p) < |table| ==>
         (table[Slot(level, p)] <==> p in Prefixes(level, pages))
  }

  lemma MarkedRecords(level: nat, table: seq<bool>, pages: set<int>, page: nat)
    requires 1 <= level <= 3 && Records(level, table, pages)
    ensures Slot(level, Prefix(level, page)) < |table|
    ensures table[Slot(level, Prefix(level, page))] <==> Prefix(level, page) in Prefixes(level, pages)
    ensures Records(level, table[Slot(level, Prefix(level, page)) := true], pages + {page})
  {
    var p := Prefix(level, page);
    PrefixInRange(level, page);
    SlotsAreDistinct(level, p, p);
    OnePageMore(level, pages, page);
    hide Slot, Size, Prefix, Prefixes;
    forall q: nat | q < Size(level) && Slot(level, q) < |table|
      ensures table[Slot(level, p) := true][Slot(level, q)] <==> q in Prefixes(level, pages + {page})
    {
      SlotsAreDistinct(level, p, q);
    }
  }

  lemma OnePageMore(level: nat, pages: set<int>, page: nat)
    ensures Prefixes(level, pages + {page}) == Prefixes(level, pages) + {Prefix(level, page)}
  {
    var more, sum := Prefixes(level, pages + {page}), Prefixes(level, pages) + {Prefix(level, page)};
    forall p | p in sum ensures p in more {
      if p in Prefixes(level, pages) {
        var i: int :| i in pages && i >= 0 && p == Prefix(level, i);
        assert i in pages + {page};
      } else {
        assert page in pages + {page};
      }
    }
  }

  method Cleared(level: nat) returns (table: array<bool>)
    requires 1 <= level <= 3
    ensures fresh(table) && Records(level, table[..], {})
  {
    table := new bool[Size(level)];
    for i := 0 to table.Length
      invariant forall j :: 0 <= j < i ==> !table[j]
    {
      table[i] := false;
    }
  }

  /** Check the entry of a page, and count it if it is new. */
  method Mark(level: nat, table: array<bool>, slot: nat, count: nat, ghost pages: set<int>, ghost page: nat)
      returns (count': nat)
    requires 1 <= level <= 3 && slot == Slot(level, Prefix(level, page))
    requires Records(level, table[..], pages) && count == |Prefixes(level, pages)|
    modifies table
    ensures Records(level, table[..], pages + {page})
    ensures count' == |Prefixes(level, pages + {page})|
  {
    MarkedRecords(level, table[..], pages, page);
    OnePageMore(level, pages, page);
    hide Records, Prefixes, Prefix, Slot;
    count' := count;
    if !table[slot] {
      table[slot] := true;
      count' := count' + 1;
    } else {
      assert table[..][slot := true] == table[..];
    }
  }

  /** all_table_size: how many tables of each level the intervals need. */
  method AllTableSize(intervals: seq<Interval>)
      returns (level1: nat, level2: nat, level3: nat, level4: nat)
    ensures level1 == 1
    ensures level2 == |Prefixes(1, Covered(intervals))|
    ensures level3 == |Prefixes(2, Covered(intervals))|
    ensures level4 == |Prefixes(3, Covered(intervals))|
  {
    hide Records, Prefixes, Prefix, Slot;
    level1, level2, level3, level4 := 1, 0, 0, 0;
    var table2 := Cleared(1);
    var table3 := Cleared(2);
    var table4 := Cleared(3);
    NoPrefixes();
    for k := 0 to |intervals|
      invariant Records(1, table2[..], Covered(intervals[..k])) && level2 == |Prefixes(1, Covered(intervals[..k]))|
      invariant Records(2, table3[..], Covered(intervals[..k])) && level3 == |Prefixes(2, Covered(intervals[..k]))|
      invariant Records(3, table4[..], Covered(intervals[..k])) && level4 == |Prefixes(3, Covered(intervals[..k]))|
    {
      ghost var pages := Covered(intervals[..k]);
      var i, end := intervals[k].begin / 4096, intervals[k].end / 4096;
      ghost var start := i;
      while i < end
        invariant start <= i && (i <= end || i == start)
        invariant Records(1, table2[..], pages) && level2 == |Prefixes(1, pages)|
        invariant Records(2, table3[..], pages) && level3 == |Prefixes(2, pages)|
        invariant Records(3, table4[..], pages) && level4 == |Prefixes(3, pages)|
        invariant forall x :: x in pages <==> x in Covered(intervals[..k]) || start <= x < i
        decreases end - i
      {
        var pdptIndex, pdIndex, ptIndex := i / 512 % 512, i / 0x4_0000 % 512, i / 0x800_0000 % 512;
        IndicesArePrefixes(i);
        level2 := Mark(1, table2, ptIndex, level2, pages, i);
        level3 := Mark(2, table3, ptIndex * 512 + pdIndex, level3, pages, i);
        level4 := Mark(3, table4, ptIndex * 512 + pdIndex * 0x4_0000 + pdptIndex, level4, pages, i);
        pages := pages + {i};
        i := i + 1;
      }
      OneIntervalMore(intervals, k, pages);
    }
    assert intervals[..|intervals|] == intervals;
  }

  lemma NoPrefixes()
    ensures Prefixes(1, {}) == Prefixes(2, {}) == Prefixes(3, {}) == {}
  {
  }

  lemma OneIntervalMore(intervals: seq<Interval>, k: nat, pages: set<int>)
    requires k < |intervals|
    requires forall x :: x in pages <==>
      x in Covered(intervals[..k]) || intervals[k].begin / 4096 <= x < intervals[k].end / 4096
    ensures pages == Covered(intervals[..k + 1])
  {
    assert intervals[..k + 1][..k] == intervals[..k];
    forall x ensures x in pages <==> x in Covered(intervals[..k + 1]) {
      assert x in PagesOf(intervals[k]) <==> Covers(intervals[k], x);
    }
  }

  // ----- what the counts mean -------------------------------------------------------------

  /** A page is covered if some interval covers it, whatever the order and the overlaps. */
  lemma {:induction false} CoveredBySome(intervals: seq<Interval>, page: int)
    ensures page in Covered(intervals) <==> exists k :: 0 <= k < |intervals| && Covers(intervals[k], page)
  {
    if intervals != [] {
      var last := |intervals| - 1;
      CoveredBySome(intervals[..last], page);
      assert page in PagesOf(intervals[last]) <==> Covers(intervals[last], page);
      if k :| 0 <= k < |intervals| && Covers(intervals[k], page) {
        assert k < last ==> intervals[..last][k] == intervals[k];
      }
    }
  }

  /** The same pages covered in any other way give the same counts. */
  lemma CountsIgnoreOrder(intervals: seq<Interval>, intervals': seq<Interval>)
    requires forall iv :: iv in intervals <==> iv in intervals'
    ensures Covered(intervals) == Covered(intervals')
  {
    forall page ensures page in Covered(intervals) <==> page in Covered(intervals') {
      CoveredBySome(intervals, page);
      CoveredBySome(intervals', page);
      if k :| 0 <= k < |intervals| && Covers(intervals[k], page) {
        assert intervals[k] in intervals';
      }
      if k :| 0 <= k < |intervals'| && Covers(intervals'[k], page) {
        assert intervals'[k] in intervals;
      }
    }
  }

  ghost function Parents(s: set<int>): set<int> {
    set x | x in s :: x / 512
  }

  /** A prefix without its last 9 bits is the prefix of the level above. */
  lemma ParentPrefixes(level: nat, pages: set<int>)
    requires level == 1 || level == 2
    ensures Prefixes(level, pages) == Parents(Prefixes(level + 1, pages))
  {
    forall page: nat ensures Prefix(level, page) == Prefix(level + 1, page) / 512 { }
    forall p | p in Prefixes(level, pages) ensures p in Parents(Prefixes(level + 1, pages)) {
      var page: int :| page in pages && page >= 0 && p == Prefix(level, page);
      assert Prefix(level + 1, page) in Prefixes(level + 1, pages);
    }
  }

  lemma ParentsOfOneMore(s: set<int>, x: int)
    ensures Parents(s + {x}) == Parents(s) + {x / 512}
  {
    forall y | y in Parents(s) + {x / 512} ensures y in Parents(s + {x}) {
      if z :| z in s && y == z / 512 {
        assert z in s + {x};
      } else {
        assert x in s + {x};
      }
    }
  }

  lemma {:induction false} FewerParents(s: set<int>)
    ensures |Parents(s)| <= |s|
  {
    if s == {} {
      assert Parents(s) == {};
    } else {
      var x := Pick(s);
      var rest := s - {x};
      FewerParents(rest);
      ParentsOfOneMore(rest, x);
      assert s == rest + {x};
    }
  }

  /** The first `n` children of `y`. */
  ghost function Children(y: int, n: nat): (c: set<int>)
    ensures |c| <= n && forall z :: z in c <==> 512 * y <= z < 512 * y + n
  {
    if n == 0 then {} else Children(y, n - 1) + {512 * y + n - 1}
  }

  lemma WithoutFamily(s: set<int>, y: int, family: set<int>)
    requires y in Parents(s) && forall z :: z in family <==> z in s && z / 512 == y
    ensures Parents(s - family) == Parents(s) - {y}
  {
    forall p | p in Parents(s) - {y} ensures p in Parents(s - family) {
      var z :| z in s && p == z / 512;
      assert z in s - family;
    }
  }

  /** A table has at most 512 tables below it. */
  lemma {:induction false} AtMost512Each(s: set<int>)
    ensures |s| <= 512 * |Parents(s)|
    decreases |Parents(s)|
  {
    if s != {} {
      var x := Pick(s);
      var y := x / 512;
      var family := set z | z in s && z / 512 == y;
      assert y in Parents(s);
      WithoutFamily(s, y, family);
      AtMost512Each(s - family);
      forall z | z in family ensures z in Children(y, 512) {
        assert z == 512 * y + z % 512;
      }
      SubsetSize(family, Children(y, 512));
      assert s == (s - family) + family;
    }
  }

  /** Each level has at least as many tables as the one above, and at most 512 times as many. */
  lemma LevelsGrow(pages: set<int>)
    ensures |Prefixes(1, pages)| <= |Prefixes(2, pages)| <= |Prefixes(3, pages)|
    ensures |Prefixes(2, pages)| <= 512 * |Prefixes(1, pages)|
    ensures |Prefixes(3, pages)| <= 512 * |Prefixes(2, pages)|
    ensures |Prefixes(1, pages)| <= 512
  {
    ParentPrefixes(1, pages);
    ParentPrefixes(2, pages);
    FewerParents(Prefixes(2, pages));
    FewerParents(Prefixes(3, pages));
    AtMost512Each(Prefixes(2, pages));
    AtMost512Each(Prefixes(3, pages));
    forall p | p in Prefixes(1, pages) ensures p in Range(512) {
      var page: int :| page in pages && page >= 0 && p == Prefix(1, page);
      PrefixInRange(1, page);
    }
    SubsetSize(Prefixes(1, pages), Range(512));
  }

  // ----- one interval ---------------------------------------------------------------------

  /** How many pages one table of a level serves. */
  function Span(level: nat): nat {
    match level
    case 1 => 512 * 512 * 512
    case 2 => 512 * 512
    case _ => 512
  }

  lemma PrefixBySpan(level: nat, page: nat)
    requires 1 <= level <= 3 && page < PAGES
    ensures Prefix(level, page) == page / Span(level)
  {
  }

  /** A page of a stretch that is served by table `p`, if the table serves any of it. */
  lemma PageServedBy(level: nat, b: nat, e: nat, p: nat) returns (page: nat)
    requires 1 <= level <= 3 && b < e && b / Span(level) <= p <= (e - 1) / Span(level)
    ensures b <= page < e && page / Span(level) == p
  {
    if p == b / Span(level) {
      page := b;
    } else {
      page := p * Span(level);
      if level == 1 {
        assert page / 0x800_0000 == p;
      } else if level == 2 {
        assert page / 0x4_0000 == p;
      } else {
        assert page / 512 == p;
      }
    }
  }

  ghost function Stretch(first: nat, n: nat): (s: set<int>)
    ensures |s| == n && forall x :: x in s <==> first <= x < first + n
  {
    if n == 0 then {} else Stretch(first, n - 1) + {first + n - 1}
  }

  lemma SpanMonotone(level: nat, a: nat, b: nat)
    requires 1 <= level <= 3 && a <= b
    ensures a / Span(level) <= b / Span(level)
  {
  }

  /** The tables that serve a stretch of pages are those between the tables of its ends. */
  lemma PrefixesBetween(iv: Interval, level: nat, p: int)
    requires 1 <= level <= 3 && iv.begin / 4096 < iv.end / 4096 <= PAGES
    ensures p in Prefixes(level, PagesOf(iv)) <==>
      iv.begin / 4096 / Span(level) <= p <= (iv.end / 4096 - 1) / Span(level)
  {
    var b, e := iv.begin / 4096, iv.end / 4096;
    if p in Prefixes(level, PagesOf(iv)) {
      var page: int :| page in PagesOf(iv) && page >= 0 && p == Prefix(level, page);
      PrefixBySpan(level, page);
      SpanMonotone(level, b, page);
      SpanMonotone(level, page, e - 1);
    }
    hide Prefix, Span;
    if b / Span(level) <= p <= (e - 1) / Span(level) {
      var page := PageServedBy(level, b, e, p);
      PrefixBySpan(level, page);
      assert Covers(iv, page) && page in PagesOf(iv);
    }
  }

  /** One interval of the address space needs as many tables as it touches. */
  lemma TablesOfOneInterval(iv: Interval, level: nat)
    requires 1 <= level <= 3 && iv.begin / 4096 < iv.end / 4096 <= PAGES
    ensures |Prefixes(level, Covered([iv]))| ==
      (iv.end / 4096 - 1) / Span(level) - iv.begin / 4096 / Span(level) + 1
  {
    var b, e := iv.begin / 4096, iv.end / 4096;
    SpanMonotone(level, b, e - 1);
    var first, last := b / Span(level), (e - 1) / Span(level);
    assert first >= 0;
    hide Prefix, Prefixes, Span, PagesOf;
    assert [iv][..0] == [];
    assert Covered([iv]) == PagesOf(iv);
    forall p ensures p in Prefixes(level, PagesOf(iv)) <==> p in Stretch(first, last - first + 1) {
      PrefixesBetween(iv, level, p);
    }
    assert Prefixes(level, PagesOf(iv)) == Stretch(first, last - first + 1);
  }
}
