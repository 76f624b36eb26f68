/** The K most frequent words of one file, and of several files by way of their results. */
module TopK {
  import opened Collections
  import opened WordOrder
  import opened WordList

  function Min(a: int, b: int): int { if a < b then a else b }

  /** The first `k` entries, or all if there are fewer. */
  function Prefix(ranking: seq<Entry>, k: int): seq<Entry> {
    if k <= 0 then [] else ranking[..Min(k, |ranking|)]
  }

  ghost predicate IsTopK(result: seq<Entry>, bag: multiset<string>, k: int) {
    exists ranking :: Ranks(ranking, bag) && result == Prefix(ranking, k)
  }

  lemma RankingOf(result: seq<Entry>, bag: multiset<string>, k: int) returns (ranking: seq<Entry>)
    requires IsTopK(result, bag, k)
    ensures Ranks(ranking, bag) && result == Prefix(ranking, k)
    ensures |result| <= |ranking| && result == ranking[..|result|]
  {
    ranking :| Ranks(ranking, bag) && result == Prefix(ranking, k);
  }

  /** The answer depends on the words and their multiplicities alone. */
  lemma TopKIsUnique(result: seq<Entry>, result': seq<Entry>, bag: multiset<string>, k: int)
    requires IsTopK(result, bag, k) && IsTopK(result', bag, k)
    ensures result == result'
  {
    var r :| Ranks(r, bag) && result == Prefix(r, k);
    var r' :| Ranks(r', bag) && result' == Prefix(r', k);
    RankingIsUnique(r, r', bag);
  }

  // ----- counting -------------------------------------------------------------------------

  /** The table counts the words of the bag. */
  ghost predicate Tallies(table: seq<Entry>, bag: multiset<string>) {
    && DistinctWords(table)
    && (forall w :: FreqOf(table, w) == bag[w])
    && forall i :: 0 <= i < |table| ==> table[i].freq > 0
  }

  function Times(word: string, n: nat): (bag: multiset<string>)
    ensures forall w :: bag[w] == if w == word then n else 0
  {
    multiset{}[word := n]
  }

  lemma InsertedTallies(table: seq<Entry>, bag: multiset<string>, word: string, freq: int)
    requires Tallies(table, bag) && freq > 0
    ensures Tallies(Inserted(table, word, freq), bag + Times(word, freq))
  {
    InsertedCounts(table, word, freq, word);
    forall w ensures FreqOf(Inserted(table, word, freq), w) == (bag + Times(word, freq))[w] {
      InsertedCounts(table, word, freq, w);
    }
  }

  lemma FreqOfEntry(table: seq<Entry>, k: nat)
    requires DistinctWords(table) && k < |table|
    ensures FreqOf(table, table[k].word) == table[k].freq
  {
  }

  /** Counting does not depend on the order of the table. */
  lemma RearrangedTallies(table: seq<Entry>, table': seq<Entry>, bag: multiset<string>)
    requires Tallies(table, bag) && multiset(table') == multiset(table) && DistinctWords(table')
    ensures Tallies(table', bag)
  {
    forall e ensures e in table <==> e in table' {
      assert e in table <==> e in multiset(table);
      assert e in table' <==> e in multiset(table');
    }
    forall w ensures FreqOf(table', w) == bag[w] {
      var k, k' := IndexOf(table, w), IndexOf(table', w);
      assert k < |table| ==> table[k] in table';
      if k' < |table'| {
        assert table'[k'] in table;
        var m :| 0 <= m < |table| && table[m] == table'[k'];
        FreqOfEntry(table, m);
      }
    }
    forall i | 0 <= i < |table'| ensures table'[i].freq > 0 {
      assert table'[i] in table;
    }
  }

  /** All frequencies of a table added up. */
  function Total(table: seq<Entry>): int {
    if table == [] then 0 else Total(table[..|table| - 1]) + table[|table| - 1].freq
  }

  lemma TalliesButLast(table: seq<Entry>, bag: multiset<string>)
    requires Tallies(table, bag) && table != []
    ensures Tallies(table[..|table| - 1], bag[table[|table| - 1].word := 0])
  {
    var front, last := table[..|table| - 1], table[|table| - 1];
    forall w ensures FreqOf(front, w) == bag[last.word := 0][w] {
      var k := IndexOf(front, w);
      if k < |front| {
        assert table[k].word == w;
        IndexOfIs(table, w, k);
      } else if IndexOf(table, w) < |table| {
        assert table[IndexOf(table, w)] == last;
      }
    }
  }

  /** Counting loses and invents nothing: the frequencies add up to the number of words counted. */
  lemma {:induction false} TalliesTotal(table: seq<Entry>, bag: multiset<string>)
    requires Tallies(table, bag)
    ensures Total(table) == |bag|
    decreases |table|
  {
    if table == [] {
      forall w ensures bag[w] == 0 {
        assert FreqOf(table, w) == 0;
      }
      assert bag == multiset{};
    } else {
      var last := table[|table| - 1];
      TalliesButLast(table, bag);
      TalliesTotal(table[..|table| - 1], bag[last.word := 0]);
      FreqOfEntry(table, |table| - 1);
    }
  }

  lemma AllTokensCounted(table: seq<Entry>, tokens: seq<string>)
    requires Tallies(table, multiset(tokens))
    ensures Total(table) == |tokens|
  {
    TalliesTotal(table, multiset(tokens));
  }

  /** A table in its final order ranks what it counts. */
  lemma SettledTableRanks(table: seq<Entry>, bag: multiset<string>)
    requires Tallies(table, bag) && Settled(table, |table|)
    ensures Ranks(table, bag)
  {
    forall i, j | 0 <= i < j < |table| ensures Before(table[i], table[j]) {
      BeforeTotal(table[i], table[j]);
      assert table[i].word != table[j].word;
    }
    forall i | 0 <= i < |table| ensures table[i].freq == bag[table[i].word] > 0 {
      FreqOfEntry(table, i);
    }
    forall w | w in bag ensures exists i :: 0 <= i < |table| && table[i].word == w {
      assert FreqOf(table, w) > 0;
    }
  }

  /** The result loop of topKFrequent. */
  method FirstEntries(words: List, k: int) returns (res: seq<Entry>)
    requires words.Linked() && words.Carries()
    ensures res == Prefix(words.table, k)
  {
    words.HeadIsDummy();
    words.Successor(0);
    hide List.Linked, List.Carries;
    res := [];
    var cur := words.head.next;
    var i := 0;
    while i < k && cur != null
      invariant i <= |words.table| && (i == 0 || i <= k)
      invariant cur == if i < |words.table| then words.nodes[i + 1] else null
      invariant res == words.table[..i]
      decreases |words.table| - i
      modifies {}
    {
      words.Successor(i + 1);
      res := res + [Entry(cur.word, cur.freq)];
      cur := cur.next;
      i := i + 1;
    }
  }

  /** The first entries of a sorted table are the answer. */
  lemma SortedTableReports(was: seq<Entry>, table: seq<Entry>, bag: multiset<string>, k: int)
    requires Tallies(was, bag) && multiset(table) == multiset(was) && DistinctWords(table)
    requires Settled(table, |table|)
    ensures IsTopK(Prefix(table, k), bag, k) && IsReport(Prefix(table, k), bag, k)
  {
    RearrangedTallies(was, table, bag);
    SettledTableRanks(table, bag);
    hide Ranks;
    assert IsTopK(Prefix(table, k), bag, k);
    TopKIsReport(Prefix(table, k), bag, k);
  }

  /** topKFrequent. */
  method TopKFrequent(words: List, k: int, ghost bag: multiset<string>) returns (res: seq<Entry>)
    requires words.Valid() && words.table != [] && Tallies(words.table, bag)
    modifies words`table, words.nodes`word, words.nodes`freq
    ensures words.Valid() && IsTopK(res, bag, k) && IsReport(res, bag, k)
  {
    hide Tallies, Settled, IsTopK, IsReport, Prefix, List.Linked, List.Carries;
    words.Sort();
    SortedTableReports(old(words.table), words.table, bag, k);
    res := FirstEntries(words, k);
  }

  lemma OneMoreToken(tokens: seq<string>, i: nat)
    requires i < |tokens|
    ensures multiset(tokens[..i + 1]) == multiset(tokens[..i]) + Times(tokens[i], 1)
  {
    assert tokens[..i + 1] == tokens[..i] + [tokens[i]];
  }

  lemma TalliesSome(table: seq<Entry>, bag: multiset<string>, word: string)
    requires Tallies(table, bag) && word in bag
    ensures table != []
  {
  }

  lemma NoTokens(table: seq<Entry>, tokens: seq<string>)
    requires table == []
    ensures Tallies(table, multiset(tokens[..0]))
  {
  }

  /** The counting loop of a worker, and its result. */
  method Worker(tokens: seq<string>, k: int) returns (res: seq<Entry>)
    requires tokens != [] && "" !in tokens
    ensures IsTopK(res, multiset(tokens), k) && IsReport(res, multiset(tokens), k)
  {
    var head := new List();
    NoTokens(head.table, tokens);
    hide Tallies, Inserted, Times, List.Valid, IsTopK, IsReport;
    for i := 0 to |tokens|
      invariant head.Valid() && fresh(head) && fresh(head.Repr)
      invariant Tallies(head.table, multiset(tokens[..i]))
    {
      InsertedTallies(head.table, multiset(tokens[..i]), tokens[i], 1);
      OneMoreToken(tokens, i);
      head.Insert(tokens[i], 1);
    }
    assert tokens[..|tokens|] == tokens;
    TalliesSome(head.table, multiset(tokens), tokens[0]);
    res := TopKFrequent(head, k, multiset(tokens));
  }

  // ----- several files --------------------------------------------------------------------

  predicate IsResult(result: seq<Entry>) {
    forall j :: 0 <= j < |result| ==> result[j].word != "" && result[j].freq > 0
  }

  /** The words of a result, as often as it says. */
  ghost function Bag(result: seq<Entry>): multiset<string>
    requires IsResult(result)
  {
    if result == [] then multiset{}
    else Bag(result[..|result| - 1]) + Times(result[|result| - 1].word, result[|result| - 1].freq)
  }

  ghost function BagOfAll(results: seq<seq<Entry>>): multiset<string>
    requires forall i :: 0 <= i < |results| ==> IsResult(results[i])
  {
    if results == [] then multiset{}
    else BagOfAll(results[..|results| - 1]) + Bag(results[|results| - 1])
  }

  /** The merge loop of main: one result of it. */
  method MergeOne(head: List, result: seq<Entry>, ghost bag: multiset<string>)
    requires head.Valid() && Tallies(head.table, bag) && IsResult(result)
    modifies head, head.Repr
    ensures head.Valid() && fresh(head.Repr - old(head.Repr))
    ensures Tallies(head.table, bag + Bag(result))
  {
    hide Tallies, Inserted;
    assert bag + Bag(result[..0]) == bag;
    for j := 0 to |result|
      invariant head.Valid() && fresh(head.Repr - old(head.Repr))
      invariant Tallies(head.table, bag + Bag(result[..j]))
    {
      assert result[..j + 1][..j] == result[..j];
      InsertedTallies(head.table, bag + Bag(result[..j]), result[j].word, result[j].freq);
      assert bag + Bag(result[..j]) + Times(result[j].word, result[j].freq) == bag + Bag(result[..j + 1]);
      head.Insert(result[j].word, result[j].freq);
    }
    assert result[..|result|] == result;
  }

  lemma OneMoreResult(results: seq<seq<Entry>>, i: nat)
    requires i < |results| && forall j :: 0 <= j < |results| ==> IsResult(results[j])
    ensures BagOfAll(results[..i + 1]) == BagOfAll(results[..i]) + Bag(results[i])
  {
    assert results[..i + 1][..i] == results[..i];
  }

  lemma NothingTallied(table: seq<Entry>, results: seq<seq<Entry>>)
    requires table == []
    ensures Tallies(table, BagOfAll(results[..0]))
  {
  }

  /** The merge loop of main. */
  method MergeAll(results: seq<seq<Entry>>) returns (head: List)
    requires forall i :: 0 <= i < |results| ==> IsResult(results[i])
    ensures fresh(head) && fresh(head.Repr) && head.Valid()
    ensures Tallies(head.table, BagOfAll(results))
  {
    head := new List();
    NothingTallied(head.table, results);
    hide Tallies, List.Valid, Bag, BagOfAll, IsResult, Times, Inserted;
    for i := 0 to |results|
      invariant head.Valid() && fresh(head) && fresh(head.Repr)
      invariant Tallies(head.table, BagOfAll(results[..i]))
    {
      OneMoreResult(results, i);
      MergeOne(head, results[i], BagOfAll(results[..i]));
    }
    assert results[..|results|] == results;
  }

  /** The final result of main. */
  method Merge(results: seq<seq<Entry>>, k: int) returns (res: seq<Entry>)
    requires forall i :: 0 <= i < |results| ==> IsResult(results[i])
    requires exists w :: w in BagOfAll(results)
    ensures IsTopK(res, BagOfAll(results), k) && IsReport(res, BagOfAll(results), k)
  {
    hide Tallies, Bag, BagOfAll, IsTopK, IsReport;
    var head := MergeAll(results);
    ghost var w :| w in BagOfAll(results);
    TalliesSome(head.table, BagOfAll(results), w);
    res := TopKFrequent(head, k, BagOfAll(results));
  }

  // ----- what merging results gets right --------------------------------------------------

  /** All tokens of all files. */
  ghost function Tokens(files: seq<seq<string>>): multiset<string> {
    if files == [] then multiset{} else Tokens(files[..|files| - 1]) + multiset(files[|files| - 1])
  }

  lemma {:induction false} TokensConcat(a: seq<seq<string>>, b: seq<seq<string>>)
    ensures Tokens(a + b) == Tokens(a) + Tokens(b)
    decreases |b|
  {
    if b == [] {
      assert a + b == a;
    } else {
      assert (a + b)[..|a + b| - 1] == a + b[..|b| - 1];
      TokensConcat(a, b[..|b| - 1]);
    }
  }

  ghost function WordsOf(bag: multiset<string>): set<string> {
    set w | w in bag
  }

  /** The words of the first `n` entries of a ranking. */
  ghost function Listed(ranking: seq<Entry>, n: nat): set<string>
    requires n <= |ranking|
  {
    set i | 0 <= i < n :: ranking[i].word
  }

  /** No word is listed twice. */
  lemma ListedOnce(ranking: seq<Entry>, n: nat, bag: multiset<string>)
    requires Ranks(ranking, bag) && n < |ranking|
    ensures ranking[n].word !in Listed(ranking, n)
    ensures Listed(ranking, n + 1) == Listed(ranking, n) + {ranking[n].word}
  {
    forall i | 0 <= i < n ensures ranking[i].word != ranking[n].word {
      assert Before(ranking[i], ranking[n]);
      StrCmpZero(ranking[i].word, ranking[n].word);
    }
  }

  /** A shortened ranking counts exactly the words that it lists, and those in full. */
  lemma {:induction false} BagOfRanking(ranking: seq<Entry>, n: nat, bag: multiset<string>, w: string)
    requires Ranks(ranking, bag) && n <= |ranking| && IsResult(ranking[..n])
    ensures Bag(ranking[..n])[w] == if w in Listed(ranking, n) then bag[w] else 0
  {
    if n > 0 {
      assert ranking[..n][..n - 1] == ranking[..n - 1];
      assert ranking[..n][n - 1] == ranking[n - 1];
      BagOfRanking(ranking, n - 1, bag, w);
      ListedOnce(ranking, n - 1, bag);
    }
  }

  lemma {:induction false} ListedSize(ranking: seq<Entry>, n: nat, bag: multiset<string>)
    requires Ranks(ranking, bag) && n <= |ranking|
    ensures |Listed(ranking, n)| == n
  {
    if n == 0 {
      assert Listed(ranking, 0) == {};
    } else {
      ListedSize(ranking, n - 1, bag);
      ListedOnce(ranking, n - 1, bag);
    }
  }

  lemma RankingListsAll(ranking: seq<Entry>, bag: multiset<string>)
    requires Ranks(ranking, bag)
    ensures Listed(ranking, |ranking|) == WordsOf(bag) && |ranking| == |WordsOf(bag)|
  {
    ListedSize(ranking, |ranking|, bag);
    forall i | 0 <= i < |ranking| ensures ranking[i].word in bag {
      assert bag[ranking[i].word] > 0;
    }
  }

  /** How many words a result can hold. */
  function Room(k: int): nat { if k < 0 then 0 else k }

  /** One file's result never overstates a count, and is complete iff all its words fit. */
  lemma ResultCounts(result: seq<Entry>, bag: multiset<string>, k: int)
    requires IsTopK(result, bag, k) && IsResult(result)
    ensures Bag(result) <= bag
    ensures Bag(result) == bag <==> |WordsOf(bag)| <= Room(k)
  {
    var ranking: seq<Entry> :| Ranks(ranking, bag) && result == Prefix(ranking, k);
    var n := |result|;
    assert result == ranking[..n];
    RankingListsAll(ranking, bag);
    forall w ensures Bag(result)[w] == if w in Listed(ranking, n) then bag[w] else 0 {
      BagOfRanking(ranking, n, bag, w);
    }
    if n < |ranking| {
      ListedOnce(ranking, n, bag);
      assert Bag(result)[ranking[n].word] == 0 < bag[ranking[n].word];
    } else {
      forall w ensures Bag(result)[w] == bag[w] {
        assert w in WordsOf(bag) <==> w in bag;
      }
    }
  }

  // ----- what the answer is, word by word ---------------------------------------------------

  predicate Lists(result: seq<Entry>, w: string) {
    exists j :: 0 <= j < |result| && result[j].word == w
  }

  /** `v` is more frequent than `w`, or as frequent and in front of it in the dictionary. */
  predicate Outranks(bag: multiset<string>, v: string, w: string) {
    bag[v] > bag[w] || (bag[v] == bag[w] && Precedes(v, w))
  }

  /** As many words as there is room for, with their counts, each ahead of all that come later or not at all. */
  ghost predicate IsReport(result: seq<Entry>, bag: multiset<string>, k: int) {
    && |result| == (if k <= 0 then 0 else if k < |WordsOf(bag)| then k else |WordsOf(bag)|)
    && (forall i :: 0 <= i < |result| ==> result[i].freq == bag[result[i].word] > 0)
    && (forall i, j :: 0 <= i < j < |result| ==> Outranks(bag, result[i].word, result[j].word))
    && forall i, w :: 0 <= i < |result| && w in bag && !Lists(result, w) ==> Outranks(bag, result[i].word, w)
  }

  lemma RankedOutranks(ranking: seq<Entry>, bag: multiset<string>, i: nat, j: nat)
    requires Ranks(ranking, bag) && i < j < |ranking|
    ensures Outranks(bag, ranking[i].word, ranking[j].word)
  {
    hide Precedes;
    assert Before(ranking[i], ranking[j]);
  }

  lemma UnlistedComesLater(ranking: seq<Entry>, bag: multiset<string>, n: nat, w: string) returns (m: nat)
    requires Ranks(ranking, bag) && n <= |ranking| && w in bag && !Lists(ranking[..n], w)
    ensures n <= m < |ranking| && ranking[m].word == w
  {
    hide Before;
    m :| 0 <= m < |ranking| && ranking[m].word == w;
    assert forall i :: 0 <= i < n ==> ranking[..n][i] == ranking[i];
  }

  lemma TopKReports(result: seq<Entry>, bag: multiset<string>, k: int)
    requires IsTopK(result, bag, k)
    ensures IsReport(result, bag, k)
  {
    var ranking := RankingOf(result, bag, k);
    var n := |result|;
    RankingListsAll(ranking, bag);
    hide Before, WordsOf, Listed, Outranks, Lists;
    forall i | 0 <= i < n ensures result[i].freq == bag[result[i].word] > 0 {
      assert result[i] == ranking[i];
    }
    forall i, j | 0 <= i < j < n ensures Outranks(bag, result[i].word, result[j].word) {
      RankedOutranks(ranking, bag, i, j);
    }
    hide Ranks;
    forall i, w | 0 <= i < n && w in bag && !Lists(result, w) ensures Outranks(bag, result[i].word, w) {
      var m := UnlistedComesLater(ranking, bag, n, w);
      RankedOutranks(ranking, bag, i, m);
    }
  }

  /** The bag without the words that are listed. */
  ghost function Unlisted(bag: multiset<string>, result: seq<Entry>): (rest: multiset<string>)
    ensures forall w :: rest[w] == if Lists(result, w) then 0 else bag[w]
  {
    if result == [] then bag
    else
      var last := |result| - 1;
      assert forall w :: Lists(result, w) <==> Lists(result[..last], w) || w == result[last].word;
      Unlisted(bag, result[..last])[result[last].word := 0]
  }

  lemma RestEntry(result: seq<Entry>, rest: seq<Entry>, bag: multiset<string>, j: nat)
    requires Ranks(rest, Unlisted(bag, result)) && j < |rest|
    ensures !Lists(result, rest[j].word) && rest[j].freq == bag[rest[j].word] > 0
  {
    hide Lists, Before;
  }

  lemma JoinedInOrder(result: seq<Entry>, rest: seq<Entry>, bag: multiset<string>, k: int, i: nat, j: nat)
    requires IsReport(result, bag, k) && Ranks(rest, Unlisted(bag, result))
    requires i < j < |result| + |rest|
    ensures Before((result + rest)[i], (result + rest)[j])
  {
    hide Precedes, Lists, WordsOf, Unlisted;
    var n := |result|;
    if j >= n {
      RestEntry(result, rest, bag, j - n);
    }
    if j < n {
      assert Outranks(bag, result[i].word, result[j].word);
    } else if i < n {
      assert Outranks(bag, result[i].word, rest[j - n].word);
    } else {
      assert Before(rest[i - n], rest[j - n]);
    }
  }

  lemma JoinedCovers(result: seq<Entry>, rest: seq<Entry>, bag: multiset<string>, w: string) returns (i: nat)
    requires Ranks(rest, Unlisted(bag, result)) && w in bag
    ensures i < |result| + |rest| && (result + rest)[i].word == w
  {
    hide Before;
    if Lists(result, w) {
      i :| 0 <= i < |result| && result[i].word == w;
    } else {
      assert w in Unlisted(bag, result);
      i :| 0 <= i < |rest| && rest[i].word == w;
      i := |result| + i;
    }
  }

  /** A report goes on to a ranking. */
  lemma ReportExtends(result: seq<Entry>, bag: multiset<string>, k: int) returns (ranking: seq<Entry>)
    requires IsReport(result, bag, k)
    ensures Ranks(ranking, bag) && result <= ranking
  {
    var rest := RankingExists(Unlisted(bag, result));
    ranking := result + rest;
    hide Before, Lists, WordsOf, Unlisted, Outranks;
    forall i, j | 0 <= i < j < |ranking| ensures Before(ranking[i], ranking[j]) {
      JoinedInOrder(result, rest, bag, k, i, j);
    }
    forall i | 0 <= i < |ranking| ensures ranking[i].freq == bag[ranking[i].word] > 0 {
      if i >= |result| {
        RestEntry(result, rest, bag, i - |result|);
      }
    }
    forall w | w in bag ensures exists i :: 0 <= i < |ranking| && ranking[i].word == w {
      var i := JoinedCovers(result, rest, bag, w);
    }
  }

  /** The top K said without a ranking. */
  lemma TopKIsReport(result: seq<Entry>, bag: multiset<string>, k: int)
    ensures IsTopK(result, bag, k) <==> IsReport(result, bag, k)
  {
    if IsTopK(result, bag, k) {
      TopKReports(result, bag, k);
    }
    if IsReport(result, bag, k) {
      var ranking := ReportExtends(result, bag, k);
      RankingListsAll(ranking, bag);
      assert result == Prefix(ranking, k);
    }
  }

  ghost predicate FitsAll(files: seq<seq<string>>, k: int) {
    forall i :: 0 <= i < |files| ==> |WordsOf(multiset(files[i]))| <= Room(k)
  }

  ghost predicate AreResults(results: seq<seq<Entry>>, files: seq<seq<string>>, k: int) {
    && |results| == |files|
    && (forall i :: 0 <= i < |files| ==> IsTopK(results[i], multiset(files[i]), k))
    && forall i :: 0 <= i < |results| ==> IsResult(results[i])
  }

  /**
   * Merging never overstates the count of a word, and it counts every word in full
   * iff no file has more than K different words.
   */
  lemma {:induction false} MergedCounts(results: seq<seq<Entry>>, files: seq<seq<string>>, k: int)
    requires AreResults(results, files, k)
    ensures BagOfAll(results) <= Tokens(files)
    ensures BagOfAll(results) == Tokens(files) <==> FitsAll(files, k)
  {
    hide IsTopK, Bag, WordsOf, FitsAll;
    if files == [] {
      assert FitsAll(files, k) by { NoFiles(files, k); }
    } else {
      var last := |files| - 1;
      MergedCounts(results[..last], files[..last], k);
      ResultCounts(results[last], multiset(files[last]), k);
      FitsAllButLast(files, k);
      BagSums(BagOfAll(results[..last]), Bag(results[last]), Tokens(files[..last]), multiset(files[last]));
    }
  }

  lemma NoFiles(files: seq<seq<string>>, k: int)
    requires files == []
    ensures FitsAll(files, k)
  {
  }

  lemma FitsAllButLast(files: seq<seq<string>>, k: int)
    requires files != []
    ensures FitsAll(files, k) <==>
      FitsAll(files[..|files| - 1], k) && |WordsOf(multiset(files[|files| - 1]))| <= Room(k)
  {
    var last := |files| - 1;
    if FitsAll(files[..last], k) && |WordsOf(multiset(files[last]))| <= Room(k) {
      forall i | 0 <= i < |files| ensures |WordsOf(multiset(files[i]))| <= Room(k) {
        assert i < last ==> files[..last][i] == files[i];
      }
    }
  }

  // ----- when the merged answer is right ----------------------------------------------------

  /** `w` is among the `k` most frequent words of the bag. */
  ghost predicate InTopK(w: string, bag: multiset<string>, k: int) {
    exists result :: IsTopK(result, bag, k) && Lists(result, w)
  }

  /** `w` is among the `k` most frequent words of every file in which it occurs. */
  ghost predicate NeverCut(files: seq<seq<string>>, k: int, w: string) {
    forall i :: 0 <= i < |files| && w in files[i] ==> InTopK(w, multiset(files[i]), k)
  }

  ghost predicate NothingCut(top: seq<Entry>, files: seq<seq<string>>, k: int) {
    forall j :: 0 <= j < |top| ==> NeverCut(files, k, top[j].word)
  }

  lemma ListedIffInTopK(result: seq<Entry>, bag: multiset<string>, k: int, w: string)
    requires IsTopK(result, bag, k)
    ensures InTopK(w, bag, k) <==> Lists(result, w)
  {
    if InTopK(w, bag, k) {
      var result' :| IsTopK(result', bag, k) && Lists(result', w);
      TopKIsUnique(result, result', bag, k);
    }
  }

  /** A result counts a word in full iff the file does not hold it or has it among its top words. */
  lemma ListedCount(result: seq<Entry>, file: seq<string>, k: int, w: string)
    requires IsTopK(result, multiset(file), k) && IsResult(result)
    ensures Bag(result)[w] <= multiset(file)[w]
    ensures Bag(result)[w] == multiset(file)[w] <==> (w in file ==> InTopK(w, multiset(file), k))
  {
    var bag := multiset(file);
    ListedIffInTopK(result, bag, k, w);
    var ranking: seq<Entry> :| Ranks(ranking, bag) && result == Prefix(ranking, k);
    var n := |result|;
    assert result == ranking[..n];
    BagOfRanking(ranking, n, bag, w);
    ListedInPrefix(ranking, n, w);
    hide Ranks, Prefix, Listed, Lists, Bag, InTopK, IsTopK;
    assert w in file <==> bag[w] > 0;
  }

  lemma ListedInPrefix(ranking: seq<Entry>, n: nat, w: string)
    requires n <= |ranking|
    ensures w in Listed(ranking, n) <==> Lists(ranking[..n], w)
  {
    if j :| 0 <= j < n && ranking[..n][j].word == w {
      assert ranking[j].word in Listed(ranking, n);
    }
  }

  lemma NeverCutButLast(files: seq<seq<string>>, k: int, w: string)
    requires files != []
    ensures NeverCut(files, k, w) <==>
      && NeverCut(files[..|files| - 1], k, w)
      && (w in files[|files| - 1] ==> InTopK(w, multiset(files[|files| - 1]), k))
  {
    hide InTopK;
    var last := |files| - 1;
    assert forall i :: 0 <= i < last ==> files[..last][i] == files[i];
    if NeverCut(files[..last], k, w) && (w in files[last] ==> InTopK(w, multiset(files[last]), k)) {
      forall i | 0 <= i < |files| && w in files[i] ensures InTopK(w, multiset(files[i]), k) {
        if i < last { assert w in files[..last][i]; }
      }
    }
  }

  /** The merged count of a word is right iff no file has cut it. */
  lemma {:induction false} MergedCount(results: seq<seq<Entry>>, files: seq<seq<string>>, k: int, w: string)
    requires AreResults(results, files, k)
    ensures BagOfAll(results)[w] <= Tokens(files)[w]
    ensures BagOfAll(results)[w] == Tokens(files)[w] <==> NeverCut(files, k, w)
  {
    hide IsTopK, Bag, InTopK, IsResult;
    if files != [] {
      var last := |files| - 1;
      MergedCount(results[..last], files[..last], k, w);
      ListedCount(results[last], files[last], k, w);
      NeverCutButLast(files, k, w);
      hide NeverCut;
    }
  }

  /** The first `n` words of the ranking have the frequencies that the bag gives them. */
  ghost predicate CountedInFull(ranking: seq<Entry>, n: nat, bag: multiset<string>)
    requires n <= |ranking|
  {
    forall j :: 0 <= j < n ==> bag[ranking[j].word] == ranking[j].freq
  }

  lemma CountedGivesSame(merged: seq<Entry>, bag: multiset<string>, ranking: seq<Entry>, all: multiset<string>, k: int)
    requires Ranks(merged, bag) && Ranks(ranking, all) && bag <= all
    requires CountedInFull(ranking, |Prefix(ranking, k)|, bag)
    ensures Prefix(merged, k) == Prefix(ranking, k)
  {
    var n := |Prefix(ranking, k)|;
    SameStart(merged, bag, ranking, all, n);
    hide Ranks;
    if n == |ranking| {
      assert ranking == ranking[..n] == merged[..n] <= merged;
      NothingBeyond(merged, bag, ranking, all);
    }
  }

  /** A smaller bag has the same top words iff it counts those of the larger one in full. */
  lemma SamePrefix(merged: seq<Entry>, bag: multiset<string>, ranking: seq<Entry>, all: multiset<string>, k: int)
    requires Ranks(merged, bag) && Ranks(ranking, all) && bag <= all
    ensures Prefix(merged, k) == Prefix(ranking, k) <==> CountedInFull(ranking, |Prefix(ranking, k)|, bag)
  {
    if CountedInFull(ranking, |Prefix(ranking, k)|, bag) {
      CountedGivesSame(merged, bag, ranking, all, k);
    } else if Prefix(merged, k) == Prefix(ranking, k) {
      forall j | 0 <= j < |Prefix(ranking, k)| ensures bag[ranking[j].word] == ranking[j].freq {
        assert merged[j] == Prefix(merged, k)[j];
      }
      assert false;
    }
  }

  lemma NothingBeyond(merged: seq<Entry>, bag: multiset<string>, ranking: seq<Entry>, all: multiset<string>)
    requires Ranks(merged, bag) && Ranks(ranking, all) && bag <= all && ranking <= merged
    ensures merged == ranking
  {
    hide Precedes;
    var n := |ranking|;
    if n < |merged| {
      assert merged[n].word in all;
      var q :| 0 <= q < n && ranking[q].word == merged[n].word;
      RankedOnce(merged, bag, q, n);
      assert false;
    }
  }

  lemma NothingCutIffCounted(results: seq<seq<Entry>>, files: seq<seq<string>>, k: int, ranking: seq<Entry>, n: nat)
    requires AreResults(results, files, k) && Ranks(ranking, Tokens(files)) && n <= |ranking|
    ensures CountedInFull(ranking, n, BagOfAll(results)) <==> NothingCut(ranking[..n], files, k)
  {
    forall j | 0 <= j < n
      ensures BagOfAll(results)[ranking[j].word] == ranking[j].freq <==> NeverCut(files, k, ranking[j].word)
    {
      MergedCount(results, files, k, ranking[j].word);
    }
    hide AreResults, IsResult, BagOfAll, NeverCut, Ranks;
    assert forall j :: 0 <= j < n ==> ranking[..n][j] == ranking[j];
  }

  /**
   * The exact condition: the merged answer is that of all files together iff each word of
   * the latter is among the top K of every file in which it occurs.
   */
  lemma MergedRightIffNothingCut(results: seq<seq<Entry>>, files: seq<seq<string>>, k: int,
      res: seq<Entry>, top: seq<Entry>)
    requires AreResults(results, files, k)
    requires IsTopK(res, BagOfAll(results), k) && IsTopK(top, Tokens(files), k)
    ensures res == top <==> NothingCut(top, files, k)
  {
    MergedCounts(results, files, k);
    var bag, all := BagOfAll(results), Tokens(files);
    hide *;
    var merged := RankingOf(res, bag, k);
    var ranking := RankingOf(top, all, k);
    SamePrefix(merged, bag, ranking, all, k);
    NothingCutIffCounted(results, files, k, ranking, |top|);
  }

  lemma TopKExists(bag: multiset<string>, k: int) returns (top: seq<Entry>)
    ensures IsTopK(top, bag, k)
  {
    var ranking := RankingExists(bag);
    top := Prefix(ranking, k);
  }

  /** If no file has more than K different words, the merged answer is that of all files together. */
  lemma MergedIsTopKOfAll(results: seq<seq<Entry>>, files: seq<seq<string>>, res: seq<Entry>, k: int)
    requires AreResults(results, files, k) && FitsAll(files, k)
    requires IsTopK(res, BagOfAll(results), k)
    ensures IsTopK(res, Tokens(files), k)
  {
    var top := TopKExists(Tokens(files), k);
    MergedCounts(results, files, k);
    forall j | 0 <= j < |top| ensures NeverCut(files, k, top[j].word) {
      MergedCount(results, files, k, top[j].word);
    }
    MergedRightIffNothingCut(results, files, k, res, top);
  }

  lemma OneFile(files: seq<seq<string>>)
    requires |files| == 1
    ensures Tokens(files) == multiset(files[0])
  {
    assert files[..0] == [];
    assert Tokens(files) == multiset{} + multiset(files[0]);
  }

  lemma OwnTopNeverCut(files: seq<seq<string>>, top: seq<Entry>, k: int)
    requires |files| == 1 && IsTopK(top, multiset(files[0]), k)
    ensures NothingCut(top, files, k)
  {
    hide IsTopK;
    forall j | 0 <= j < |top| ensures NeverCut(files, k, top[j].word) {
      assert Lists(top, top[j].word);
    }
  }

  /** With one file the merged answer is always right. */
  lemma OneFileIsRight(results: seq<seq<Entry>>, files: seq<seq<string>>, res: seq<Entry>, k: int)
    requires |files| == 1 && AreResults(results, files, k)
    requires IsTopK(res, BagOfAll(results), k)
    ensures IsTopK(res, Tokens(files), k)
  {
    hide IsTopK, IsResult, Tokens, BagOfAll, NothingCut;
    OneFile(files);
    OwnTopNeverCut(files, results[0], k);
    MergedRightIffNothingCut(results, files, k, res, results[0]);
  }

  lemma ResultOfProperFile(result: seq<Entry>, bag: multiset<string>, k: int)
    requires IsTopK(result, bag, k) && "" !in bag
    ensures IsResult(result)
    ensures k > 0 && |bag| > 0 ==> result != []
  {
    var ranking: seq<Entry> :| Ranks(ranking, bag) && result == Prefix(ranking, k);
    forall j | 0 <= j < |result| ensures result[j].word != "" && result[j].freq > 0 {
      assert result[j] == ranking[j];
    }
    if |bag| > 0 {
      var w :| w in bag;
    }
  }

  /** threadtopk: a result per file, then the merge. */
  method TopKOfFiles(files: seq<seq<string>>, k: int) returns (res: seq<Entry>)
    requires k > 0 && files != []
    requires forall i :: 0 <= i < |files| ==> files[i] != [] && "" !in files[i]
    ensures exists results :: AreResults(results, files, k) && IsTopK(res, BagOfAll(results), k)
    ensures forall top :: IsTopK(top, Tokens(files), k) ==> (res == top <==> NothingCut(top, files, k))
    ensures FitsAll(files, k) || |files| == 1 ==> IsTopK(res, Tokens(files), k)
  {
    hide IsTopK, Bag;
    var results: seq<seq<Entry>> := [];
    for i := 0 to |files|
      invariant |results| == i
      invariant forall j :: 0 <= j < i ==> IsTopK(results[j], multiset(files[j]), k)
      invariant forall j :: 0 <= j < i ==> IsResult(results[j]) && results[j] != []
    {
      var result := Worker(files[i], k);
      ResultOfProperFile(result, multiset(files[i]), k);
      results := results + [result];
    }
    SomethingCounted(results);
    res := Merge(results, k);
    assert AreResults(results, files, k);
    forall top | IsTopK(top, Tokens(files), k) ensures res == top <==> NothingCut(top, files, k) {
      MergedRightIffNothingCut(results, files, k, res, top);
    }
    if FitsAll(files, k) {
      MergedIsTopKOfAll(results, files, res, k);
    } else if |files| == 1 {
      OneFileIsRight(results, files, res, k);
    }
  }

  lemma SomethingCounted(results: seq<seq<Entry>>)
    requires results != [] && forall i :: 0 <= i < |results| ==> IsResult(results[i]) && results[i] != []
    ensures exists w :: w in BagOfAll(results)
  {
    var last := results[|results| - 1];
    assert Times(last[|last| - 1].word, last[|last| - 1].freq)[last[|last| - 1].word] > 0;
    assert last[|last| - 1].word in BagOfAll(results);
  }

  // ----- what merging results can get wrong -------------------------------------------------

  lemma TwoRank(x: Entry, y: Entry, bag: multiset<string>)
    requires Before(x, y) && x.word != y.word && x.freq > 0 && y.freq > 0
    requires bag == Times(x.word, x.freq) + Times(y.word, y.freq)
    ensures Ranks([x, y], bag) && IsTopK([x], bag, 1)
  {
    var r := [x, y];
    forall w | w in bag ensures exists i :: 0 <= i < |r| && r[i].word == w {
      assert r[0].word == w || r[1].word == w;
    }
    assert Ranks(r, bag);
    assert [x] == Prefix(r, 1);
  }

  lemma TopIsNot(x: Entry, y: Entry, bag: multiset<string>)
    requires Before(x, y) && x.freq == bag[x.word] > 0
    ensures !IsTopK([y], bag, 1)
  {
    if IsTopK([y], bag, 1) {
      var ranking: seq<Entry> :| Ranks(ranking, bag) && [y] == Prefix(ranking, 1);
      var i :| 0 <= i < |ranking| && ranking[i].word == x.word;
      assert ranking[i] == x && ranking[0] == y;
      BeforeAsymmetric(x, y);
      assert false;
    }
  }

  function File(word: string): seq<string> { [word, word, "A"] }

  lemma FileBag(word: string)
    ensures multiset(File(word)) == Times(word, 2) + Times("A", 1)
  {
  }

  lemma FileResult(word: string)
    requires word != "A" && word != ""
    ensures IsTopK([Entry(word, 2)], multiset(File(word)), 1)
  {
    FileBag(word);
    TwoRank(Entry(word, 2), Entry("A", 1), multiset(File(word)));
  }

  lemma PairOfFiles(v: string, w: string)
    ensures Tokens([File(v), File(w)]) == multiset(File(v)) + multiset(File(w))
  {
    hide File;
    var one, files := [File(v)], [File(v), File(w)];
    assert one[..0] == [] && files[..1] == one;
    assert Tokens(one) == multiset{} + multiset(File(v));
    assert Tokens(files) == Tokens(one) + multiset(File(w));
  }

  lemma PairOfResults(x: Entry, y: Entry)
    requires x.word != "" && y.word != "" && x.freq > 0 && y.freq > 0
    ensures BagOfAll([[x], [y]]) == Times(x.word, x.freq) + Times(y.word, y.freq)
  {
    BagOfOne([x]);
    BagOfOne([y]);
    hide Bag;
    var one, results := [[x]], [[x], [y]];
    assert one[..0] == [] && results[..1] == one;
    assert BagOfAll(one) == multiset{} + Bag([x]);
    assert BagOfAll(results) == BagOfAll(one) + Bag([y]);
  }

  const CUT_FILES := [["Z", "Z", "A"], ["Y", "Y", "A"]]
  const CUT_RESULTS := [[Entry("Z", 2)], [Entry("Y", 2)]]

  lemma CutResults()
    ensures AreResults(CUT_RESULTS, CUT_FILES, 1)
  {
    FileResult("Z");
    FileResult("Y");
    hide IsTopK;
    assert CUT_FILES == [File("Z"), File("Y")];
  }

  lemma CutTokens()
    ensures Tokens(CUT_FILES) == Times("Z", 2) + Times("A", 1) + Times("Y", 2) + Times("A", 1)
  {
    FileBag("Z");
    FileBag("Y");
    assert CUT_FILES == [File("Z"), File("Y")];
    PairOfFiles("Z", "Y");
  }

  /**
   * With K too small for the files, the merged answer can differ from that of all
   * files together: of ZZA and YYA, the results for K = 1 are Z and Y, and A is lost.
   */
  lemma ShortResultsMislead()
    ensures AreResults(CUT_RESULTS, CUT_FILES, 1)
    ensures IsTopK([Entry("Y", 2)], BagOfAll(CUT_RESULTS), 1)
    ensures !IsTopK([Entry("Y", 2)], Tokens(CUT_FILES), 1)
  {
    CutResults();
    CutTokens();
    hide IsTopK, BagOfAll, Tokens, AreResults, CUT_FILES;
    var z, y, a := Entry("Z", 2), Entry("Y", 2), Entry("A", 2);
    assert "Y"[..0] == "Z"[..0] && "A"[..0] == "Y"[..0];
    assert "Y"[0] < "Z"[0] && "A"[0] < "Y"[0];
    PairOfResults(z, y);
    TwoRank(y, z, BagOfAll(CUT_RESULTS));
    TopIsNot(a, y, Tokens(CUT_FILES));
  }

  lemma BagOfOne(result: seq<Entry>)
    requires |result| == 1 && IsResult(result)
    ensures Bag(result) == Times(result[0].word, result[0].freq)
  {
  }
}
