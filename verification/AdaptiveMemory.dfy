/** The memory store: entries, an inverted keyword index over their positions, top-k
    recall, and pruning that reorders the entries the index points into. */
module Memory {
  import opened Sequences
  import opened StableSort

  datatype MemoryKind = Fact | Preference | ToolPattern | Summary | ErrorResolution

  datatype Keyword = Keyword(text: string)

  datatype MemoryEntry = MemoryEntry(
    id: string,
    kind: MemoryKind,
    content: string,
    keywords: seq<Keyword>,
    importance: real,
    accessCount: nat,
    createdAt: nat,
    lastAccessed: nat)

  datatype MemoryConfig = MemoryConfig(maxRecall: nat, minRelevance: real, maxMemories: nat)

  /** The effective importance of an entry, with the current time fixed for one call. */
  type Importance = MemoryEntry -> real

  // ---- The keyword index ----

  /** `idx` once for every occurrence of `kw` among the keywords. */
  function Copies(keywords: seq<Keyword>, kw: Keyword, idx: nat): seq<nat> {
    if keywords == [] then []
    else
      var n := |keywords| - 1;
      Copies(keywords[..n], kw, idx) + if keywords[n] == kw then [idx] else []
  }

  /** The positions of the entries that carry `kw`, ascending, once per occurrence. */
  function Positions(entries: seq<MemoryEntry>, kw: Keyword): seq<nat> {
    if entries == [] then []
    else
      var n := |entries| - 1;
      Positions(entries[..n], kw) + Copies(entries[n].keywords, kw, n)
  }

  type Index = map<Keyword, seq<nat>>

  function Postings(index: Index, kw: Keyword): seq<nat> {
    if kw in index then index[kw] else []
  }

  /** The index lists exactly the positions of every keyword and has no empty lists. */
  ghost predicate Indexed(entries: seq<MemoryEntry>, index: Index) {
    && (forall kw :: Postings(index, kw) == Positions(entries, kw))
    && NoEmptyLists(index)
  }

  /** Position `p` is listed for `kw` as often as entry `p` carries `kw`. */
  lemma {:induction false} PositionsCountCarriers(entries: seq<MemoryEntry>, kw: Keyword, p: nat)
    ensures multiset(Positions(entries, kw))[p] == if p < |entries| then multiset(entries[p].keywords)[kw] else 0
    ensures p in Positions(entries, kw) <==> p < |entries| && kw in entries[p].keywords
  {
    if entries != [] {
      var n := |entries| - 1;
      PositionsCountCarriers(entries[..n], kw, p);
      CopiesCount(entries[n].keywords, kw, n, p);
    }
    assert p in Positions(entries, kw) <==> multiset(Positions(entries, kw))[p] > 0;
  }

  lemma {:induction false} CopiesCount(keywords: seq<Keyword>, kw: Keyword, idx: nat, p: nat)
    ensures multiset(Copies(keywords, kw, idx))[p] == if p == idx then multiset(keywords)[kw] else 0
  {
    if keywords != [] {
      var n := |keywords| - 1;
      CopiesCount(keywords[..n], kw, idx, p);
      assert keywords == keywords[..n] + [keywords[n]];
    }
  }

  lemma {:induction false} CopiesAreEqual(keywords: seq<Keyword>, kw: Keyword, idx: nat)
    ensures forall i :: 0 <= i < |Copies(keywords, kw, idx)| ==> Copies(keywords, kw, idx)[i] == idx
  {
    if keywords != [] {
      CopiesAreEqual(keywords[..|keywords| - 1], kw, idx);
    }
  }

  /** The list of a keyword is ascending. */
  lemma {:induction false} PositionsAscend(entries: seq<MemoryEntry>, kw: Keyword)
    ensures forall i :: 0 <= i < |Positions(entries, kw)| ==> Positions(entries, kw)[i] < |entries|
    ensures forall i, j :: 0 <= i < j < |Positions(entries, kw)| ==> Positions(entries, kw)[i] <= Positions(entries, kw)[j]
  {
    if entries != [] {
      var n := |entries| - 1;
      PositionsAscend(entries[..n], kw);
      CopiesAreEqual(entries[n].keywords, kw, n);
    }
  }

  /** `index` is `index0` with `idx` appended to each keyword's list, once per occurrence. */
  ghost predicate Extends(index0: Index, index: Index, keywords: seq<Keyword>, idx: nat) {
    && (forall kw :: Postings(index, kw) == Postings(index0, kw) + Copies(keywords, kw, idx))
    && (NoEmptyLists(index0) ==> NoEmptyLists(index))
  }

  ghost predicate NoEmptyLists(index: Index) {
    forall kw :: kw in index ==> index[kw] != []
  }

  lemma PostingsNext(index0: Index, index: Index, keywords: seq<Keyword>, idx: nat, next: Keyword, kw: Keyword)
    requires Postings(index, kw) == Postings(index0, kw) + Copies(keywords, kw, idx)
    ensures Postings(index[next := Postings(index, next) + [idx]], kw)
            == Postings(index0, kw) + Copies(keywords + [next], kw, idx)
  {
    assert (keywords + [next])[..|keywords|] == keywords;
    if kw == next {
      assert Copies(keywords + [next], kw, idx) == Copies(keywords, kw, idx) + [idx];
    } else {
      assert Copies(keywords + [next], kw, idx) == Copies(keywords, kw, idx);
    }
  }

  lemma ExtendsNext(index0: Index, index: Index, keywords: seq<Keyword>, idx: nat, next: Keyword)
    requires Extends(index0, index, keywords, idx)
    ensures Extends(index0, index[next := Postings(index, next) + [idx]], keywords + [next], idx)
  {
    var index' := index[next := Postings(index, next) + [idx]];
    forall kw ensures Postings(index', kw) == Postings(index0, kw) + Copies(keywords + [next], kw, idx) {
      PostingsNext(index0, index, keywords, idx, next, kw);
    }
  }

  method IndexEntry(index0: Index, keywords: seq<Keyword>, idx: nat) returns (index: Index)
    ensures Extends(index0, index, keywords, idx)
  {
    index := index0;
    var i := 0;
    while i < |keywords|
      invariant 0 <= i <= |keywords|
      invariant Extends(index0, index, keywords[..i], idx)
    {
      ExtendsNext(index0, index, keywords[..i], idx, keywords[i]);
      assert keywords[..i + 1] == keywords[..i] + [keywords[i]];
      index := index[keywords[i] := Postings(index, keywords[i]) + [idx]];
      i := i + 1;
    }
    assert keywords[..i] == keywords;
  }

  /** Indexing one more entry keeps the index exact. */
  lemma IndexedNext(entries: seq<MemoryEntry>, index: Index, entry: MemoryEntry, index': Index)
    requires Indexed(entries, index) && Extends(index, index', entry.keywords, |entries|)
    ensures Indexed(entries + [entry], index')
  {
    assert (entries + [entry])[..|entries|] == entries;
  }

  // ---- Pruning ----

  /** The last `n` elements, or all of them. */
  function Tail(s: seq<MemoryEntry>, n: nat): seq<MemoryEntry> {
    if |s| <= n then s else s[|s| - n..]
  }

  /** What `Tail` leaves off. */
  function Front(s: seq<MemoryEntry>, n: nat): seq<MemoryEntry> {
    if |s| <= n then [] else s[..|s| - n]
  }

  /** The store after pruning: untouched when it fits, otherwise the end of the sorted entries. */
  function Kept(entries: seq<MemoryEntry>, max: nat, importance: Importance): seq<MemoryEntry> {
    if |entries| <= max then entries else Tail(Sort(importance, entries), max)
  }

  function Dropped(entries: seq<MemoryEntry>, max: nat, importance: Importance): seq<MemoryEntry> {
    if |entries| <= max then [] else Front(Sort(importance, entries), max)
  }

  lemma FrontIsLower(sorted: seq<MemoryEntry>, n: nat, importance: Importance)
    requires forall i, j :: 0 <= i < j < |sorted| ==> importance(sorted[i]) <= importance(sorted[j])
    ensures Front(sorted, n) + Tail(sorted, n) == sorted
    ensures forall d, k :: d in Front(sorted, n) && k in Tail(sorted, n) ==> importance(d) <= importance(k)
  {
    forall d, k | d in Front(sorted, n) && k in Tail(sorted, n) ensures importance(d) <= importance(k) {
      var cut := |sorted| - n;
      var i :| 0 <= i < cut && sorted[i] == d;
      var j :| cut <= j < |sorted| && sorted[j] == k;
    }
  }

  /** Pruning keeps as many entries as allowed, loses and invents nothing else, and drops
      nothing more important than what it keeps. */
  lemma PruneKeepsBest(entries: seq<MemoryEntry>, max: nat, importance: Importance)
    ensures |Kept(entries, max, importance)| == if |entries| <= max then |entries| else max
    ensures multiset(Dropped(entries, max, importance) + Kept(entries, max, importance)) == multiset(entries)
    ensures forall d, k :: d in Dropped(entries, max, importance) && k in Kept(entries, max, importance) ==>
              importance(d) <= importance(k)
    ensures |entries| <= max ==> Kept(entries, max, importance) == entries
  {
    if |entries| <= max {
      assert [] + entries == entries;
    } else {
      SortPermutes(importance, entries);
      SortAscending(importance, entries);
      FrontIsLower(Sort(importance, entries), max, importance);
    }
  }

  /** When something is dropped, the dropped and the kept entries together stand in order of
      importance, and entries of equal importance stand in whatever order they had before. */
  lemma PruneIsStable(entries: seq<MemoryEntry>, max: nat, importance: Importance, earlier: (MemoryEntry, MemoryEntry) -> bool)
    requires |entries| > max && TiesOrdered(importance, earlier, entries)
    ensures Ordered(importance, earlier, Dropped(entries, max, importance) + Kept(entries, max, importance))
  {
    SortStable(importance, earlier, entries);
    SortPermutes(importance, entries);
    var sorted := Sort(importance, entries);
    assert Front(sorted, max) + Tail(sorted, max) == sorted;
  }

  // ---- Recall ----

  function Matches(queryKw: seq<Keyword>, entryKw: seq<Keyword>): (n: nat)
    ensures n <= |queryKw|
  {
    if queryKw == [] then 0
    else Matches(queryKw[..|queryKw| - 1], entryKw) + if queryKw[|queryKw| - 1] in entryKw then 1 else 0
  }

  /** The fraction of query keywords that the entry carries. */
  function KeywordOverlap(queryKw: seq<Keyword>, entryKw: seq<Keyword>): real {
    if queryKw == [] || entryKw == [] then 0.0
    else Matches(queryKw, entryKw) as real / |queryKw| as real
  }

  function Score(query: seq<Keyword>, entry: MemoryEntry, importance: Importance): real {
    KeywordOverlap(query, entry.keywords) * 0.7 + importance(entry) * 0.3
  }

  /** The score of an entry without fractions: seven parts for the share of query positions
      whose keyword the entry carries, three parts for its importance. */
  ghost predicate IsScore(query: seq<Keyword>, entry: MemoryEntry, importance: Importance, score: real) {
    if query == [] || entry.keywords == [] then 10.0 * score == 3.0 * importance(entry)
    else
      var carried := |set i: nat | i < |query| && query[i] in entry.keywords|;
      10.0 * |query| as real * score == 7.0 * carried as real + 3.0 * |query| as real * importance(entry)
  }

  lemma {:induction false} MatchesCount(queryKw: seq<Keyword>, entryKw: seq<Keyword>)
    ensures Matches(queryKw, entryKw) == |Where(queryKw, (q: Keyword) => q in entryKw)|
  {
    if queryKw != [] {
      MatchesCount(queryKw[..|queryKw| - 1], entryKw);
      WhereNext(queryKw, (q: Keyword) => q in entryKw);
    }
  }

  lemma ScaledFraction(m: nat, n: nat, x: real)
    requires n > 0
    ensures 10.0 * n as real * (m as real / n as real * 0.7 + x * 0.3) == 7.0 * m as real + 3.0 * n as real * x
  {
    var f := m as real / n as real;
    assert f * n as real == m as real;
    assert 10.0 * n as real * (f * 0.7) == 7.0 * (f * n as real);
    assert 10.0 * n as real * (x * 0.3) == 3.0 * n as real * x;
  }

  lemma SameScaled(n: nat, a: real, b: real)
    requires n > 0 && 10.0 * n as real * a == 10.0 * n as real * b
    ensures a == b
  {
    assert (10.0 * n as real) * (a - b) == 0.0;
  }

  /** The score is the only number of that description. */
  lemma ScoreIsExact(query: seq<Keyword>, entry: MemoryEntry, importance: Importance, score: real)
    ensures IsScore(query, entry, importance, score) <==> score == Score(query, entry, importance)
  {
    if query != [] && entry.keywords != [] {
      MatchesCount(query, entry.keywords);
      assert Where(query, (q: Keyword) => q in entry.keywords) == set i: nat | i < |query| && query[i] in entry.keywords;
      ScaledFraction(Matches(query, entry.keywords), |query|, importance(entry));
      if IsScore(query, entry, importance, score) {
        SameScaled(|query|, score, Score(query, entry, importance));
      }
    }
  }

  datatype Hit = Hit(idx: nat, score: real)

  /** The entries at or above the threshold, in store order, with their scores. */
  function Relevant(entries: seq<MemoryEntry>, query: seq<Keyword>, importance: Importance, threshold: real): seq<Hit> {
    if entries == [] then []
    else
      var n := |entries| - 1;
      var score := Score(query, entries[n], importance);
      Relevant(entries[..n], query, importance, threshold) + if score >= threshold then [Hit(n, score)] else []
  }

  function Descending(): Hit -> real {
    (h: Hit) => -h.score
  }

  function Hits(entries: seq<MemoryEntry>, query: seq<Keyword>, importance: Importance, config: MemoryConfig): seq<Hit> {
    var sorted := Sort(Descending(), Relevant(entries, query, importance, config.minRelevance));
    if |sorted| <= config.maxRecall then sorted else sorted[..config.maxRecall]
  }

  /** `a` ranks above `b`: a higher score, or the same score and stored earlier. */
  predicate Above(a: Hit, b: Hit) {
    a.score > b.score || (a.score == b.score && a.idx < b.idx)
  }

  ghost predicate IsHit(entries: seq<MemoryEntry>, query: seq<Keyword>, importance: Importance, threshold: real, h: Hit) {
    h.idx < |entries| && h.score == Score(query, entries[h.idx], importance) && h.score >= threshold
  }

  lemma {:induction false} RelevantIff(entries: seq<MemoryEntry>, query: seq<Keyword>, importance: Importance, threshold: real, h: Hit)
    ensures h in Relevant(entries, query, importance, threshold) <==> IsHit(entries, query, importance, threshold, h)
  {
    if entries != [] {
      var n := |entries| - 1;
      RelevantIff(entries[..n], query, importance, threshold, h);
    }
  }

  lemma {:induction false} RelevantAscends(entries: seq<MemoryEntry>, query: seq<Keyword>, importance: Importance, threshold: real)
    ensures var r := Relevant(entries, query, importance, threshold);
            && InRange(r, |entries|)
            && (forall i, j :: 0 <= i < j < |r| ==> r[i].idx < r[j].idx)
  {
    if entries != [] {
      RelevantAscends(entries[..|entries| - 1], query, importance, threshold);
    }
  }

  /** Recall returns the best hits in order: as many as allowed, each relevant, ranked by
      score and then by position, and above every relevant entry left out. */
  lemma HitsAreTop(entries: seq<MemoryEntry>, query: seq<Keyword>, importance: Importance, config: MemoryConfig)
    ensures var hits := Hits(entries, query, importance, config);
            var relevant := |Relevant(entries, query, importance, config.minRelevance)|;
            && |hits| == (if relevant <= config.maxRecall then relevant else config.maxRecall)
            && (forall h :: h in hits ==> IsHit(entries, query, importance, config.minRelevance, h))
            && (forall i, j :: 0 <= i < j < |hits| ==> Above(hits[i], hits[j]))
            && (forall h, m :: h in hits && m !in hits && IsHit(entries, query, importance, config.minRelevance, m) ==> Above(h, m))
  {
    var relevant := Relevant(entries, query, importance, config.minRelevance);
    var sorted := Sort(Descending(), relevant);
    var earlier := (a: Hit, b: Hit) => a.idx < b.idx;
    RelevantAscends(entries, query, importance, config.minRelevance);
    forall h ensures h in relevant <==> IsHit(entries, query, importance, config.minRelevance, h) {
      RelevantIff(entries, query, importance, config.minRelevance, h);
    }
    SortPermutes(Descending(), relevant);
    SortStable(Descending(), earlier, relevant);
    forall i, j | 0 <= i < j < |sorted| ensures Above(sorted[i], sorted[j]) {
      assert Precedes(Descending(), earlier, sorted[i], sorted[j]);
    }
    var hits := Hits(entries, query, importance, config);
    forall h, m | h in hits && m !in hits && m in sorted ensures Above(h, m) {
      var i :| 0 <= i < |hits| && hits[i] == h;
      var j :| 0 <= j < |sorted| && sorted[j] == m;
    }
  }

  /** A query keyword set is fully covered exactly when the overlap is one. */
  lemma {:induction false} OverlapIsFraction(queryKw: seq<Keyword>, entryKw: seq<Keyword>)
    ensures 0.0 <= KeywordOverlap(queryKw, entryKw) <= 1.0
    ensures KeywordOverlap(queryKw, entryKw) == 1.0 <==> queryKw != [] && entryKw != [] && forall q :: q in queryKw ==> q in entryKw
  {
    AllMatch(queryKw, entryKw);
    if queryKw != [] && entryKw != [] {
      FractionOfOne(Matches(queryKw, entryKw), |queryKw|);
    }
  }

  lemma FractionOfOne(m: nat, n: nat)
    requires m <= n && n > 0
    ensures 0.0 <= m as real / n as real <= 1.0
    ensures m as real / n as real == 1.0 <==> m == n
  {
    assert m as real / n as real * n as real == m as real;
  }

  lemma {:induction false} AllMatch(queryKw: seq<Keyword>, entryKw: seq<Keyword>)
    ensures Matches(queryKw, entryKw) == |queryKw| <==> forall q :: q in queryKw ==> q in entryKw
  {
    if queryKw != [] {
      var n := |queryKw| - 1;
      AllMatch(queryKw[..n], entryKw);
      assert queryKw == queryKw[..n] + [queryKw[n]];
    }
  }

  function Touch(e: MemoryEntry, now: nat): MemoryEntry {
    e.(accessCount := e.accessCount + 1, lastAccessed := now)
  }

  ghost predicate IsReturned(hits: seq<Hit>, i: nat) {
    exists h :: h in hits && h.idx == i
  }

  /** `places` are the positions of the entries to return, best first, with their scores: as
      many as allowed, all at or above the threshold, and above every such entry left out. */
  ghost predicate Best(entries: seq<MemoryEntry>, query: seq<Keyword>, importance: Importance, config: MemoryConfig,
                       places: seq<nat>, scores: seq<real>) {
    && |places| == |scores| <= config.maxRecall
    && (forall k :: 0 <= k < |places| ==>
          places[k] < |entries| && IsScore(query, entries[places[k]], importance, scores[k]) && scores[k] >= config.minRelevance)
    && (forall j, k :: 0 <= j < k < |places| ==> Outranks(scores[j], places[j], scores[k], places[k]))
    && (forall i, score ::
          (&& 0 <= i < |entries| && i !in places
           && IsScore(query, entries[i], importance, score) && score >= config.minRelevance) ==>
          |places| == config.maxRecall && forall k :: 0 <= k < |places| ==> Outranks(scores[k], places[k], score, i))
  }

  /** A higher score wins, then the earlier position. */
  ghost predicate Outranks(score: real, place: nat, score': real, place': nat) {
    score > score' || (score == score' && place < place')
  }

  ghost function Places(hits: seq<Hit>): seq<nat> {
    seq(|hits|, k requires 0 <= k < |hits| => hits[k].idx)
  }

  ghost function Scores(memories: seq<(MemoryEntry, real)>): seq<real> {
    seq(|memories|, k requires 0 <= k < |memories| => memories[k].1)
  }

  lemma HitsAreBest(entries: seq<MemoryEntry>, query: seq<Keyword>, importance: Importance, config: MemoryConfig, scores: seq<real>)
    requires var hits := Hits(entries, query, importance, config);
             |scores| == |hits| && forall k :: 0 <= k < |hits| ==> scores[k] == hits[k].score
    ensures Best(entries, query, importance, config, Places(Hits(entries, query, importance, config)), scores)
  {
    var hits := Hits(entries, query, importance, config);
    var places := Places(hits);
    HitsAreTop(entries, query, importance, config);
    forall k | 0 <= k < |hits|
      ensures IsHit(entries, query, importance, config.minRelevance, hits[k])
      ensures hits[k].idx < |entries| && IsScore(query, entries[hits[k].idx], importance, hits[k].score)
    {
      assert hits[k] in hits;
      ScoreIsExact(query, entries[hits[k].idx], importance, hits[k].score);
    }
    forall i, score | 0 <= i < |entries| && i !in places && IsScore(query, entries[i], importance, score) && score >= config.minRelevance
      ensures |places| == config.maxRecall && forall k :: 0 <= k < |places| ==> Outranks(scores[k], places[k], score, i)
    {
      OmittedIsLower(entries, query, importance, config, i, score);
    }
  }

  lemma OmittedIsLower(entries: seq<MemoryEntry>, query: seq<Keyword>, importance: Importance, config: MemoryConfig, i: nat, score: real)
    requires i < |entries| && IsScore(query, entries[i], importance, score) && score >= config.minRelevance
    requires i !in Places(Hits(entries, query, importance, config))
    ensures var hits := Hits(entries, query, importance, config);
            |hits| == config.maxRecall && forall k :: 0 <= k < |hits| ==> Above(hits[k], Hit(i, score))
  {
    var hits := Hits(entries, query, importance, config);
    var m := Hit(i, score);
    ScoreIsExact(query, entries[i], importance, score);
    assert IsHit(entries, query, importance, config.minRelevance, m);
    assert forall k :: 0 <= k < |hits| ==> Places(hits)[k] == hits[k].idx && Places(hits)[k] in Places(hits);
    assert m !in hits;
    HitsAreTop(entries, query, importance, config);
    RelevantIff(entries, query, importance, config.minRelevance, m);
    SortPermutes(Descending(), Relevant(entries, query, importance, config.minRelevance));
  }

  /** One more access for the entries at `places`, and nothing else. */
  ghost predicate Accessed(before: seq<MemoryEntry>, after: seq<MemoryEntry>, places: seq<nat>, now: nat) {
    && |after| == |before|
    && forall i :: 0 <= i < |before| ==>
         after[i] == if i in places then before[i].(accessCount := before[i].accessCount + 1, lastAccessed := now) else before[i]
  }

  class AdaptiveMemory {
    const config: MemoryConfig
    var entries: seq<MemoryEntry>
    var keywordIndex: Index

    ghost predicate Valid()
      reads this
    {
      Indexed(entries, keywordIndex) && |entries| <= config.maxMemories
    }

    constructor (config: MemoryConfig)
      ensures Valid() && this.config == config && entries == []
    {
      this.config := config;
      entries, keywordIndex := [], map[];
    }

    method Store(entry: MemoryEntry, importance: Importance)
      requires Valid()
      modifies this
      ensures Valid()
      ensures entries == Kept(old(entries) + [entry], config.maxMemories, importance)
    {
      var idx := |entries|;
      ghost var before := keywordIndex;
      keywordIndex := IndexEntry(keywordIndex, entry.keywords, idx);
      IndexedNext(entries, before, entry, keywordIndex);
      entries := entries + [entry];
      Prune(importance);
    }

    method Prune(importance: Importance)
      requires Indexed(entries, keywordIndex)
      modifies this
      ensures Valid()
      ensures entries == Kept(old(entries), config.maxMemories, importance)
    {
      if |entries| <= config.maxMemories {
        return;
      }
      SortPermutes(importance, entries);
      var toRemove := |entries| - config.maxMemories;
      entries := Sort(importance, entries);
      entries := entries[toRemove..];
      RebuildKeywordIndex();
    }

    method RebuildKeywordIndex()
      modifies `keywordIndex
      ensures Indexed(entries, keywordIndex)
    {
      keywordIndex := map[];
      var idx := 0;
      while idx < |entries|
        invariant 0 <= idx <= |entries|
        invariant Indexed(entries[..idx], keywordIndex)
      {
        ghost var before := keywordIndex;
        keywordIndex := IndexEntry(keywordIndex, entries[idx].keywords, idx);
        IndexedNext(entries[..idx], before, entries[idx], keywordIndex);
        assert entries[..idx + 1] == entries[..idx] + [entries[idx]];
        idx := idx + 1;
      }
      assert entries[..idx] == entries;
    }

    /** Counts one access for each hit. */
    method TouchAll(hits: seq<Hit>, now: nat)
      requires InRange(hits, |entries|)
      requires forall i, j :: 0 <= i < j < |hits| ==> hits[i].idx != hits[j].idx
      modifies `entries
      ensures entries == Touched(old(entries), hits, now)
    {
      var k := 0;
      while k < |hits|
        invariant 0 <= k <= |hits| && |entries| == |old(entries)|
        invariant entries == Touched(old(entries), hits[..k], now)
      {
        ReturnedNext(hits, k);
        var idx := hits[k].idx;
        entries := entries[idx := Touch(entries[idx], now)];
        k := k + 1;
      }
      assert hits[..k] == hits;
    }

    /** Returns the hits with their entries as updated, and changes nothing but the access
        fields of what it returns. */
    method Recall(query: seq<Keyword>, importance: Importance, now: nat)
      returns (memories: seq<(MemoryEntry, real)>, ghost places: seq<nat>)
      requires Valid()
      modifies `entries
      ensures Valid()
      ensures entries == Touched(old(entries), Hits(old(entries), query, importance, config), now)
      ensures var hits := Hits(old(entries), query, importance, config);
              InRange(hits, |entries|) && memories == Recalled(entries, hits)
      ensures |memories| == |places|
      ensures Best(old(entries), query, importance, config, places, Scores(memories))
      ensures Accessed(old(entries), entries, places, now)
      ensures forall k :: 0 <= k < |places| ==> places[k] < |entries| && memories[k].0 == entries[places[k]]
    {
      var hits := Hits(entries, query, importance, config);
      HitsAreTop(entries, query, importance, config);
      HitsAreDistinct(entries, query, importance, config);
      TouchAll(hits, now);
      SameKeywordsSamePositions(old(entries), entries);
      memories, places := Recalled(entries, hits), Places(hits);
      HitsAreBest(old(entries), query, importance, config, Scores(memories));
      TouchedIsAccessed(old(entries), hits, now);
    }
  }

  /** The store after one access to each hit; everything else stays as it was. */
  ghost function Touched(entries: seq<MemoryEntry>, hits: seq<Hit>, now: nat): seq<MemoryEntry> {
    seq(|entries|, i requires 0 <= i < |entries| => if IsReturned(hits, i) then Touch(entries[i], now) else entries[i])
  }

  lemma TouchedIsAccessed(entries: seq<MemoryEntry>, hits: seq<Hit>, now: nat)
    ensures Accessed(entries, Touched(entries, hits, now), Places(hits), now)
  {
    forall i | 0 <= i < |entries| ensures IsReturned(hits, i) <==> i in Places(hits) {
      if IsReturned(hits, i) {
        var h :| h in hits && h.idx == i;
        var k :| 0 <= k < |hits| && hits[k] == h;
        assert Places(hits)[k] == i;
      }
    }
  }

  function Recalled(entries: seq<MemoryEntry>, hits: seq<Hit>): seq<(MemoryEntry, real)>
    requires InRange(hits, |entries|)
  {
    seq(|hits|, i requires 0 <= i < |hits| => (entries[hits[i].idx], hits[i].score))
  }

  predicate InRange(hits: seq<Hit>, n: nat) {
    forall i :: 0 <= i < |hits| ==> hits[i].idx < n
  }

  lemma ReturnedNext(hits: seq<Hit>, k: nat)
    requires k < |hits| && forall i, j :: 0 <= i < j < |hits| ==> hits[i].idx != hits[j].idx
    ensures forall i :: IsReturned(hits[..k + 1], i) <==> IsReturned(hits[..k], i) || i == hits[k].idx
    ensures !IsReturned(hits[..k], hits[k].idx)
  {
    assert hits[..k + 1] == hits[..k] + [hits[k]];
    forall i ensures IsReturned(hits[..k + 1], i) <==> IsReturned(hits[..k], i) || i == hits[k].idx {
      assert hits[k] in hits[..k + 1];
      assert forall h :: h in hits[..k + 1] <==> h in hits[..k] || h == hits[k];
    }
  }

  lemma HitsAreDistinct(entries: seq<MemoryEntry>, query: seq<Keyword>, importance: Importance, config: MemoryConfig)
    ensures var hits := Hits(entries, query, importance, config);
            && InRange(hits, |entries|)
            && (forall i, j :: 0 <= i < j < |hits| ==> hits[i].idx != hits[j].idx)
  {
    HitsAreTop(entries, query, importance, config);
    var hits := Hits(entries, query, importance, config);
    forall i | 0 <= i < |hits|
      ensures hits[i].idx < |entries| && hits[i].score == Score(query, entries[hits[i].idx], importance)
    {
      assert hits[i] in hits;
    }
  }

  lemma {:induction false} SameKeywordsSamePositions(a: seq<MemoryEntry>, b: seq<MemoryEntry>)
    requires |a| == |b| && forall i :: 0 <= i < |a| ==> a[i].keywords == b[i].keywords
    ensures forall kw :: Positions(a, kw) == Positions(b, kw)
  {
    if a != [] {
      SameKeywordsSamePositions(a[..|a| - 1], b[..|b| - 1]);
    }
  }
}
