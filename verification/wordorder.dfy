/** Words, their frequencies, and the order in which results are reported. */
module WordOrder {

  datatype Entry = Entry(word: string, freq: int)

  /** strcmp: negative, zero or positive as `a` comes before, is, or comes after `b`. */
  function StrCmp(a: string, b: string): int {
    if a == [] then (if b == [] then 0 else -1)
    else if b == [] then 1
    else if a[0] < b[0] then -1
    else if a[0] > b[0] then 1
    else StrCmp(a[1..], b[1..])
  }

  lemma {:induction false} StrCmpZero(a: string, b: string)
    ensures StrCmp(a, b) == 0 <==> a == b
  {
    if a != [] && b != [] {
      StrCmpZero(a[1..], b[1..]);
      assert a == [a[0]] + a[1..] && b == [b[0]] + b[1..];
    }
  }

  lemma {:induction false} StrCmpFlips(a: string, b: string)
    ensures StrCmp(a, b) == -StrCmp(b, a)
  {
    if a != [] && b != [] {
      StrCmpFlips(a[1..], b[1..]);
    }
  }

  lemma {:induction false} StrCmpTransitive(a: string, b: string, c: string)
    requires StrCmp(a, b) < 0 && StrCmp(b, c) < 0
    ensures StrCmp(a, c) < 0
  {
    if a != [] && b != [] && c != [] && a[0] == b[0] == c[0] {
      StrCmpTransitive(a[1..], b[1..], c[1..]);
    }
  }

  /** `a` stands in front of `b` in the dictionary: it is a beginning of `b`, or has the smaller first difference. */
  predicate Precedes(a: string, b: string) {
    || (|a| < |b| && a == b[..|a|])
    || (exists k :: 0 <= k < |a| && k < |b| && a[..k] == b[..k] && a[k] < b[k])
  }

  lemma TailPrefix(a: string, b: string, k: nat)
    requires a != [] && b != [] && a[0] == b[0] && k < |a| && k < |b|
    ensures a[..k + 1] == b[..k + 1] <==> a[1..][..k] == b[1..][..k]
  {
    assert a[..k + 1] == [a[0]] + a[1..][..k] && b[..k + 1] == [b[0]] + b[1..][..k];
    assert a[..k + 1][1..] == a[1..][..k] && b[..k + 1][1..] == b[1..][..k];
  }

  lemma PrecedesTail(a: string, b: string)
    requires a != [] && b != [] && a[0] == b[0]
    ensures Precedes(a, b) <==> Precedes(a[1..], b[1..])
  {
    if |a| < |b| {
      TailPrefix(a, b, |a| - 1);
      assert a[..|a|] == a && a[1..][..|a| - 1] == a[1..];
    }
    if k :| 0 <= k < |a| && k < |b| && a[..k] == b[..k] && a[k] < b[k] {
      TailPrefix(a, b, k - 1);
      assert a[1..][k - 1] < b[1..][k - 1];
    }
    if k :| 0 <= k < |a| - 1 && k < |b| - 1 && a[1..][..k] == b[1..][..k] && a[1..][k] < b[1..][k] {
      TailPrefix(a, b, k);
      assert a[k + 1] < b[k + 1];
    }
  }

  lemma DifferentHeads(a: string, b: string)
    requires a != [] && b != [] && a[0] != b[0]
    ensures Precedes(a, b) <==> a[0] < b[0]
  {
    assert a[..0] == b[..0];
    if |a| < |b| {
      assert b[..|a|][0] == b[0];
    }
    forall k | 0 < k < |a| && k < |b| ensures a[..k] != b[..k] {
      assert a[..k][0] == a[0] && b[..k][0] == b[0];
    }
  }

  /** strcmp is dictionary order. */
  lemma {:induction false} StrCmpIsDictionary(a: string, b: string)
    ensures StrCmp(a, b) < 0 <==> Precedes(a, b)
  {
    if a != [] && b != [] {
      if a[0] == b[0] {
        PrecedesTail(a, b);
        StrCmpIsDictionary(a[1..], b[1..]);
      } else {
        DifferentHeads(a, b);
      }
    }
  }

  /** Higher frequency first; equal frequencies in dictionary order. */
  predicate Before(x: Entry, y: Entry) {
    x.freq > y.freq || (x.freq == y.freq && Precedes(x.word, y.word))
  }

  lemma BeforeTransitive(x: Entry, y: Entry, z: Entry)
    requires Before(x, y) && Before(y, z)
    ensures Before(x, z)
  {
    if x.freq == y.freq == z.freq {
      StrCmpIsDictionary(x.word, y.word);
      StrCmpIsDictionary(y.word, z.word);
      StrCmpIsDictionary(x.word, z.word);
      StrCmpTransitive(x.word, y.word, z.word);
    }
  }

  lemma BeforeAsymmetric(x: Entry, y: Entry)
    requires Before(x, y)
    ensures !Before(y, x)
  {
    StrCmpIsDictionary(x.word, y.word);
    StrCmpIsDictionary(y.word, x.word);
    StrCmpFlips(x.word, y.word);
  }

  lemma BeforeTotal(x: Entry, y: Entry)
    ensures Before(x, y) || Before(y, x) || x == y
  {
    StrCmpIsDictionary(x.word, y.word);
    StrCmpIsDictionary(y.word, x.word);
    StrCmpZero(x.word, y.word);
    StrCmpFlips(x.word, y.word);
  }

  /** No entry goes before one with the same word and frequency. */
  lemma BeforeDiffers(x: Entry, y: Entry)
    requires Before(x, y) && x.freq == y.freq
    ensures x.word != y.word
  {
    BeforeAsymmetric(x, y);
  }

  // ----- tables -----------------------------------------------------------------------------

  predicate DistinctWords(table: seq<Entry>) {
    forall i, j :: 0 <= i < j < |table| ==> table[i].word != table[j].word
  }

  /** The place of a word in the table, or its length. */
  function IndexOf(table: seq<Entry>, word: string): (k: nat)
    ensures k <= |table| && (k < |table| ==> table[k].word == word)
    ensures forall i :: 0 <= i < k ==> table[i].word != word
  {
    if table == [] || table[0].word == word then 0 else 1 + IndexOf(table[1..], word)
  }

  function FreqOf(table: seq<Entry>, word: string): int {
    var k := IndexOf(table, word);
    if k < |table| then table[k].freq else 0
  }

  /** insert: count `freq` more occurrences of `word`. */
  function Inserted(table: seq<Entry>, word: string, freq: int): seq<Entry> {
    var k := IndexOf(table, word);
    if k < |table| then table[k := Entry(word, table[k].freq + freq)] else table + [Entry(word, freq)]
  }

  lemma IndexOfIs(table: seq<Entry>, word: string, k: nat)
    requires DistinctWords(table) && k < |table| && table[k].word == word
    ensures IndexOf(table, word) == k
  {
  }

  /** Inserting adds to one word and keeps every other count. */
  lemma InsertedCounts(table: seq<Entry>, word: string, freq: int, other: string)
    requires DistinctWords(table)
    ensures DistinctWords(Inserted(table, word, freq))
    ensures FreqOf(Inserted(table, word, freq), other) == FreqOf(table, other) + if other == word then freq else 0
  {
    var table' := Inserted(table, word, freq);
    assert DistinctWords(table');
    assert forall i :: 0 <= i < |table| ==> table'[i].word == table[i].word;
    var k := IndexOf(table', other);
    if k < |table'| && k < |table| {
      assert table[k].word == other;
      IndexOfIs(table, other, k);
    } else if k < |table'| {
      assert IndexOf(table, other) == |table|;
    } else {
      var m := IndexOf(table, word);
      assert table'[m].word == word;
    }
  }

  // ----- rankings ---------------------------------------------------------------------------

  /** `ranking` lists the words of a bag with their multiplicities, in reporting order. */
  predicate Ranks(ranking: seq<Entry>, bag: multiset<string>) {
    && (forall i, j :: 0 <= i < j < |ranking| ==> Before(ranking[i], ranking[j]))
    && (forall i :: 0 <= i < |ranking| ==> ranking[i].freq == bag[ranking[i].word] > 0)
    && forall w :: w in bag ==> exists i :: 0 <= i < |ranking| && ranking[i].word == w
  }

  lemma SameEntries(r: seq<Entry>, r': seq<Entry>, bag: multiset<string>, i: nat)
    requires Ranks(r, bag) && Ranks(r', bag) && i < |r|
    ensures r[i] in r'
  {
  }

  predicate Ordered(r: seq<Entry>) {
    forall i, j :: 0 <= i < j < |r| ==> Before(r[i], r[j])
  }

  lemma {:induction false} OrderedIsUnique(r: seq<Entry>, r': seq<Entry>)
    requires Ordered(r) && Ordered(r')
    requires forall e :: e in r <==> e in r'
    ensures r == r'
  {
    assert r' != [] ==> r'[0] in r;
    if r != [] {
      assert r[0] in r' && r'[0] in r;
      var i :| 0 <= i < |r'| && r'[i] == r[0];
      var j :| 0 <= j < |r| && r[j] == r'[0];
      if i > 0 && j > 0 {
        BeforeAsymmetric(r[0], r'[0]);
        assert false;
      }
      assert r[0] == r'[0];
      forall e | e in r[1..] ensures e in r'[1..] { TailKeeps(r, r', e); }
      forall e | e in r'[1..] ensures e in r[1..] { TailKeeps(r', r, e); }
      OrderedIsUnique(r[1..], r'[1..]);
      assert r == [r[0]] + r[1..] && r' == [r'[0]] + r'[1..];
    }
  }

  lemma TailKeeps(r: seq<Entry>, r': seq<Entry>, e: Entry)
    requires r != [] && r' != [] && r[0] == r'[0] && Ordered(r)
    requires e in r[1..] && e in r'
    ensures e in r'[1..]
  {
    var k :| 0 <= k < |r'| && r'[k] == e;
    var m :| 0 <= m < |r[1..]| && r[1..][m] == e;
    assert Before(r[0], r[m + 1]);
    BeforeAsymmetric(r[0], e);
    assert k != 0;
    assert r'[1..][k - 1] == e;
  }

  /** A bag has only one ranking. */
  lemma RankingIsUnique(r: seq<Entry>, r': seq<Entry>, bag: multiset<string>)
    requires Ranks(r, bag) && Ranks(r', bag)
    ensures r == r'
  {
    forall e | e in r ensures e in r' {
      var i :| 0 <= i < |r| && r[i] == e;
      SameEntries(r, r', bag, i);
    }
    forall e | e in r' ensures e in r {
      var i :| 0 <= i < |r'| && r'[i] == e;
      SameEntries(r', r, bag, i);
    }
    OrderedIsUnique(r, r');
  }

  /** Where `e` belongs in an ordered line. */
  function PlaceFor(r: seq<Entry>, e: Entry): (p: nat)
    ensures p <= |r| && (p < |r| ==> Before(e, r[p]))
    ensures forall i :: 0 <= i < p ==> !Before(e, r[i])
  {
    if r == [] || Before(e, r[0]) then 0 else 1 + PlaceFor(r[1..], e)
  }

  /** `e` put in its place. */
  function Placed(r: seq<Entry>, e: Entry): (r': seq<Entry>)
    ensures |r'| == |r| + 1
    ensures forall x :: x in r' <==> x == e || x in r
  {
    var p := PlaceFor(r, e);
    assert r == r[..p] + r[p..];
    r[..p] + [e] + r[p..]
  }

  lemma PlacedIsOrdered(r: seq<Entry>, e: Entry)
    requires Ordered(r) && e !in r
    ensures Ordered(Placed(r, e))
  {
    var p := PlaceFor(r, e);
    forall i | 0 <= i < |r| ensures if i < p then Before(r[i], e) else Before(e, r[i]) {
      assert r[i] in r;
      BeforeTotal(r[i], e);
      if i > p {
        BeforeTransitive(e, r[p], r[i]);
      }
    }
    hide Before;
  }

  lemma PlacedRanks(r: seq<Entry>, bag: multiset<string>, e: Entry)
    requires Ranks(r, bag) && e.word !in bag && e.freq > 0
    ensures Ranks(Placed(r, e), bag[e.word := e.freq])
  {
    PlacedIsOrdered(r, e);
    hide PlaceFor, Placed, Before;
    var r', bag' := Placed(r, e), bag[e.word := e.freq];
    forall i | 0 <= i < |r'| ensures r'[i].freq == bag'[r'[i].word] > 0 {
      assert r'[i] in r';
    }
    forall v | v in bag' ensures exists i :: 0 <= i < |r'| && r'[i].word == v {
      if v == e.word {
        assert e in r';
      } else {
        var k :| 0 <= k < |r| && r[k].word == v;
        assert r[k] in r';
      }
    }
  }

  /** Every bag has a ranking. */
  lemma {:induction false} RankingExists(bag: multiset<string>) returns (r: seq<Entry>)
    ensures Ranks(r, bag)
    decreases |bag|
  {
    if bag == multiset{} {
      r := [];
    } else {
      var w :| w in bag;
      var rest := bag[w := 0];
      r := RankingExists(rest);
      PlacedRanks(r, rest, Entry(w, bag[w]));
      assert bag == rest[w := bag[w]];
      r := Placed(r, Entry(w, bag[w]));
    }
  }

  /** Words in a ranking are distinct. */
  lemma RankedOnce(r: seq<Entry>, bag: multiset<string>, i: nat, j: nat)
    requires Ranks(r, bag) && i < j < |r|
    ensures r[i].word != r[j].word
  {
    assert Before(r[i], r[j]);
    StrCmpZero(r[i].word, r[j].word);
  }

  /**
   * Undercounting can only push words down: the ranking of a smaller bag starts like that
   * of the larger one as far as the words there are counted in full.
   */
  lemma {:induction false} SameStart(less: seq<Entry>, bag: multiset<string>,
      more: seq<Entry>, bag': multiset<string>, n: nat)
    requires Ranks(less, bag) && Ranks(more, bag') && bag <= bag' && n <= |more|
    requires forall i :: 0 <= i < n ==> bag[more[i].word] == more[i].freq
    ensures n <= |less| && less[..n] == more[..n]
  {
    if n > 0 {
      SameStart(less, bag, more, bag', n - 1);
      NextInBoth(less, bag, more, bag', n - 1);
    }
  }

  lemma NextInBoth(less: seq<Entry>, bag: multiset<string>, more: seq<Entry>, bag': multiset<string>, n: nat)
    requires Ranks(less, bag) && Ranks(more, bag') && bag <= bag'
    requires n < |more| && n <= |less| && less[..n] == more[..n]
    requires bag[more[n].word] == more[n].freq
    ensures n < |less| && less[n] == more[n]
  {
    hide Precedes;
    var e := more[n];
    assert e.word in bag;
    var p :| 0 <= p < |less| && less[p].word == e.word;
    assert less[p] == e;
    if p < n {
      assert more[p] == less[..n][p];
      RankedOnce(more, bag', p, n);
      assert false;
    }
    if p > n {
      var f := less[n];
      assert 0 < f.freq == bag[f.word] <= bag'[f.word];
      var q :| 0 <= q < |more| && more[q].word == f.word;
      assert Before(more[q], f) || more[q] == f;
      if q < n {
        assert less[q] == more[..n][q];
        RankedOnce(less, bag, q, n);
      } else {
        RankedOnce(less, bag, n, p);
        LaterIsNotBefore(more, n, q, f);
      }
      assert false;
    }
  }

  /** Nothing from place `n` on, nor what comes behind it, belongs in front of place `n`. */
  lemma LaterIsNotBefore(r: seq<Entry>, n: nat, q: nat, f: Entry)
    requires Ordered(r) && n <= q < |r| && (Before(r[q], f) || r[q] == f)
    ensures !Before(f, r[n])
  {
    if Before(f, r[n]) {
      if Before(r[q], f) { BeforeTransitive(r[q], f, r[n]); }
      BeforeAsymmetric(r[q], r[n]);
      assert false;
    }
  }
}
