/** The federated multinomial Naive Bayes model: counting a shard and combining the counts
    (internal/nb/nb.go, lines 11-93). Probabilities are exact reals. */
module NaiveBayes {
  import opened Dataset
  import opened MapSums

  type Histograms = map<Bytes, map<Bytes, nat>>

  /** Raw frequencies: class -> word -> count, and class -> token count. */
  datatype LocalCounts = LocalCounts(wordCounts: Histograms, classTotals: map<Bytes, nat>)

  datatype GlobalModel = GlobalModel(
    wordProbs: map<Bytes, map<Bytes, real>>, // class -> word -> P(word|class)
    classPriors: map<Bytes, real>,           // class -> P(class)
    vocabSize: nat)

  /** A word's entry for a class; absent entries read as zero. */
  function Count(m: Histograms, c: Bytes, w: Bytes): nat {
    if c in m && w in m[c] then m[c][w] else 0
  }

  function At(m: map<Bytes, nat>, k: Bytes): nat {
    if k in m then m[k] else 0
  }

  /** The statement m[k] += n. */
  function Add(m: map<Bytes, nat>, k: Bytes, n: nat): map<Bytes, nat> {
    m[k := At(m, k) + n]
  }

  // ----- Counting one shard -----

  /** All tokens of the records of one class, in order. */
  function TokensOf(records: seq<Record>, c: Bytes): seq<Bytes> {
    if records == [] then []
    else
      var n := |records| - 1;
      TokensOf(records[..n], c) + if records[n].lbl == c then Tokenize(records[n].text) else []
  }

  function Labels(records: seq<Record>): set<Bytes> {
    set r | r in records :: r.lbl
  }

  /** How often each word occurs. */
  function Histogram(tokens: seq<Bytes>): map<Bytes, nat> {
    map w | w in tokens :: multiset(tokens)[w]
  }

  function WordCountsOf(records: seq<Record>): Histograms {
    map c | c in Labels(records) :: Histogram(TokensOf(records, c))
  }

  function ClassTotalsOf(records: seq<Record>): map<Bytes, nat> {
    map c | c in Labels(records) && TokensOf(records, c) != [] :: |TokensOf(records, c)|
  }

  /** The counts of a shard: per class the multiset of its tokens and its size. */
  function CountsOf(records: seq<Record>): LocalCounts {
    LocalCounts(WordCountsOf(records), ClassTotalsOf(records))
  }

  /** The tokens met so far, class by class. */
  type TokenTable = map<Bytes, seq<Bytes>>

  ghost function TableOf(records: seq<Record>): TokenTable {
    map c | c in Labels(records) :: TokensOf(records, c)
  }

  function TokensIn(table: TokenTable, c: Bytes): seq<Bytes> {
    if c in table then table[c] else []
  }

  /** The tables hold the histogram and the size of every class's tokens. */
  ghost predicate Rows(wordCounts: Histograms, table: TokenTable) {
    && (forall c :: c in wordCounts <==> c in table)
    && (forall c :: c in wordCounts ==> wordCounts[c] == Histogram(table[c]))
  }

  ghost predicate Sizes(classTotals: map<Bytes, nat>, table: TokenTable) {
    && (forall c :: c in classTotals <==> TokensIn(table, c) != [])
    && (forall c :: c in classTotals ==> classTotals[c] == |TokensIn(table, c)|)
  }

  method CountLocal(records: seq<Record>) returns (counts: LocalCounts)
    ensures counts == CountsOf(records)
  {
    var wordCounts: Histograms := map[];
    var classTotals: map<Bytes, nat> := map[];
    for i := 0 to |records|
      invariant Rows(wordCounts, TableOf(records[..i]))
      invariant Sizes(classTotals, TableOf(records[..i]))
    {
      assert records[..i + 1] == records[..i] + [records[i]];
      TableNext(records[..i], records[i]);
      wordCounts, classTotals := CountRecord(records[i].lbl, Tokenize(records[i].text), wordCounts, classTotals,
                                             TableOf(records[..i]));
    }
    assert records[..|records|] == records;
    RowsAreCounts(wordCounts, records);
    SizesAreCounts(classTotals, records);
    return LocalCounts(wordCounts, classTotals);
  }

  /** One record: its class gets a row if it has none, then every token is counted. */
  method CountRecord(lbl: Bytes, toks: seq<Bytes>, wordCounts: Histograms, classTotals: map<Bytes, nat>,
                     ghost table: TokenTable)
    returns (wordCounts': Histograms, classTotals': map<Bytes, nat>)
    requires Rows(wordCounts, table) && Sizes(classTotals, table)
    ensures Rows(wordCounts', table[lbl := TokensIn(table, lbl) + toks])
    ensures Sizes(classTotals', table[lbl := TokensIn(table, lbl) + toks])
  {
    var row := if lbl in wordCounts then wordCounts[lbl] else map[];
    EmptyHistogram();
    var row', total := CountTokens(toks, row, At(classTotals, lbl), TokensIn(table, lbl));
    RowSet(wordCounts, table, lbl, row', TokensIn(table, lbl) + toks);
    SizeSet(classTotals, table, lbl, TokensIn(table, lbl) + toks);
    wordCounts' := wordCounts[lbl := row'];
    classTotals' := if total > 0 then classTotals[lbl := total] else classTotals;
  }

  lemma EmptyHistogram()
    ensures Histogram([]) == map[]
  {
  }

  lemma RowSet(wordCounts: Histograms, table: TokenTable, c: Bytes, row: map<Bytes, nat>, tokens: seq<Bytes>)
    requires Rows(wordCounts, table) && row == Histogram(tokens)
    ensures Rows(wordCounts[c := row], table[c := tokens])
  {
  }

  lemma SizeSet(classTotals: map<Bytes, nat>, table: TokenTable, c: Bytes, tokens: seq<Bytes>)
    requires Sizes(classTotals, table) && |TokensIn(table, c)| <= |tokens|
    ensures Sizes(if |tokens| > 0 then classTotals[c := |tokens|] else classTotals, table[c := tokens])
  {
  }

  lemma RowsAreCounts(wordCounts: Histograms, records: seq<Record>)
    requires Rows(wordCounts, TableOf(records))
    ensures wordCounts == WordCountsOf(records)
  {
    forall c | c in Labels(records)
      ensures TableOf(records)[c] == TokensOf(records, c)
    {
    }
  }

  lemma SizesAreCounts(classTotals: map<Bytes, nat>, records: seq<Record>)
    requires Sizes(classTotals, TableOf(records))
    ensures classTotals == ClassTotalsOf(records)
  {
    forall c | c in Labels(records)
      ensures TokensIn(TableOf(records), c) == TokensOf(records, c)
    {
    }
  }

  /** The inner loop: the row and the total of one class, bumped once for every token. */
  method CountTokens(toks: seq<Bytes>, row: map<Bytes, nat>, total: nat, ghost earlier: seq<Bytes>)
    returns (row': map<Bytes, nat>, total': nat)
    requires row == Histogram(earlier) && total == |earlier|
    ensures row' == Histogram(earlier + toks) && total' == |earlier + toks|
  {
    row', total' := row, total;
    assert earlier + toks[..0] == earlier;
    for j := 0 to |toks|
      invariant row' == Histogram(earlier + toks[..j])
      invariant total' == |earlier| + j
    {
      assert earlier + toks[..j + 1] == earlier + toks[..j] + [toks[j]];
      HistogramAppend(earlier + toks[..j], toks[j]);
      row' := Add(row', toks[j], 1);
      total' := total' + 1;
    }
    assert toks[..|toks|] == toks;
  }

  lemma HistogramAppend(tokens: seq<Bytes>, t: Bytes)
    ensures Histogram(tokens + [t]) == Add(Histogram(tokens), t, 1)
  {
  }

  lemma {:induction false} NoTokens(records: seq<Record>, c: Bytes)
    requires c !in Labels(records)
    ensures TokensOf(records, c) == []
  {
    if records != [] {
      var n := |records| - 1;
      assert records[n] in records;
      assert forall r :: r in records[..n] ==> r in records;
      NoTokens(records[..n], c);
    }
  }

  lemma TokensNext(records: seq<Record>, r: Record, c: Bytes)
    ensures TokensOf(records + [r], c) == TokensOf(records, c) + if r.lbl == c then Tokenize(r.text) else []
  {
    assert (records + [r])[..|records|] == records;
  }

  /** One more record changes the tokens of its own class only. */
  lemma TableNext(records: seq<Record>, r: Record)
    ensures TableOf(records + [r])
            == TableOf(records)[r.lbl := TokensIn(TableOf(records), r.lbl) + Tokenize(r.text)]
  {
    LabelsNext(records, r);
    var before, after := TableOf(records), TableOf(records + [r]);
    var expected := before[r.lbl := TokensIn(before, r.lbl) + Tokenize(r.text)];
    forall c | c in after
      ensures after[c] == expected[c]
    {
      TokensNext(records, r, c);
      if c !in Labels(records) {
        NoTokens(records, c);
      }
    }
    SameEntries(after, expected);
  }

  lemma LabelsNext(records: seq<Record>, r: Record)
    ensures forall c :: c in Labels(records + [r]) <==> c in Labels(records) || c == r.lbl
  {
    forall c | c in Labels(records) || c == r.lbl
      ensures c in Labels(records + [r])
    {
      if c == r.lbl {
        assert r in records + [r];
      } else {
        var q :| q in records && q.lbl == c;
        assert q in records + [r];
      }
    }
  }

  // ----- Combining the counts of several shards -----

  function CountIn(c: Bytes, w: Bytes): LocalCounts -> nat {
    (u: LocalCounts) => Count(u.wordCounts, c, w)
  }

  function TotalIn(c: Bytes): LocalCounts -> nat {
    (u: LocalCounts) => if c in u.classTotals then u.classTotals[c] else 0
  }

  /** sum_i count_i(w, c) */
  function SumCounts(us: seq<LocalCounts>, c: Bytes, w: Bytes): nat {
    SumBy(us, CountIn(c, w))
  }

  /** sum_i total_i(c) */
  function SumTotals(us: seq<LocalCounts>, c: Bytes): nat {
    SumBy(us, TotalIn(c))
  }

  function Vocab(us: seq<LocalCounts>): set<Bytes> {
    set u, c, w | u in us && c in u.wordCounts && w in u.wordCounts[c] :: w
  }

  function Classes(us: seq<LocalCounts>): set<Bytes> {
    set u, c | u in us && c in u.classTotals :: c
  }

  function ClassTotals(us: seq<LocalCounts>): map<Bytes, nat> {
    map c | c in Classes(us) :: SumTotals(us, c)
  }

  /** The Laplace-smoothed P(w|c). */
  function Smoothed(count: nat, total: nat, vocabSize: nat): real
    requires vocabSize > 0
  {
    (count + 1) as real / (total + vocabSize) as real
  }

  function Share(total: nat, tokens: nat): real
    requires tokens > 0
  {
    total as real / tokens as real
  }

  ghost function WordProbs(us: seq<LocalCounts>, c: Bytes): map<Bytes, real> {
    map w | w in Vocab(us) :: Smoothed(SumCounts(us, c, w), SumTotals(us, c), |Vocab(us)|)
  }

  ghost function AllWordProbs(us: seq<LocalCounts>): map<Bytes, map<Bytes, real>> {
    map c | c in Classes(us) :: WordProbs(us, c)
  }

  /** Priors are shares of the token count; with no token at all there are none. */
  ghost function Priors(us: seq<LocalCounts>): map<Bytes, real> {
    var tokens := Total(ClassTotals(us));
    map c | c in Classes(us) && tokens > 0 :: Share(SumTotals(us, c), tokens)
  }

  /** The aggregated model, as its formula says. */
  ghost function ModelOf(us: seq<LocalCounts>): GlobalModel {
    GlobalModel(AllWordProbs(us), Priors(us), |Vocab(us)|)
  }

  method Aggregate(updates: seq<LocalCounts>) returns (model: GlobalModel)
    ensures model == ModelOf(updates)
  {
    var combined, totals, vocab := Combine(updates);
    var totalTokens := SumUp(totals);
    var wordProbs, classPriors := Derive(combined, totals, vocab, totalTokens, updates);
    model := GlobalModel(wordProbs, classPriors, |vocab|);
    ModelIs(updates, totalTokens, model);
  }

  /** The loop over the classes. */
  method Derive(combined: Histograms, totals: map<Bytes, nat>, vocab: set<Bytes>, totalTokens: nat, ghost us: seq<LocalCounts>)
    returns (wordProbs: map<Bytes, map<Bytes, real>>, classPriors: map<Bytes, real>)
    requires IsCombined(combined, us) && vocab == Vocab(us)
    requires forall c :: c in totals ==> totals[c] == SumTotals(us, c)
    ensures ProbsDone(wordProbs, us, totals.Keys, {})
    ensures PriorsDone(classPriors, us, totalTokens, totals.Keys, {})
  {
    wordProbs, classPriors := map[], map[];
    var todo := totals.Keys;
    while todo != {}
      invariant todo <= totals.Keys
      invariant ProbsDone(wordProbs, us, totals.Keys, todo)
      invariant PriorsDone(classPriors, us, totalTokens, totals.Keys, todo)
      decreases todo
    {
      var lbl :| lbl in todo;
      var probs := Smooth(vocab, combined, lbl, totals[lbl], us);
      ProbsPut(wordProbs, us, totals.Keys, todo, lbl, probs);
      PriorsPut(classPriors, us, totalTokens, totals.Keys, todo, lbl);
      wordProbs := wordProbs[lbl := probs];
      classPriors := PutPrior(classPriors, lbl, totals[lbl], totalTokens);
      todo := todo - {lbl};
    }
  }

  /** A class gets its prior only when there are tokens. */
  function PutPrior(priors: map<Bytes, real>, c: Bytes, total: nat, tokens: nat): map<Bytes, real> {
    if tokens > 0 then priors[c := Share(total, tokens)] else priors
  }

  /** The classes not still to do have their word probabilities. */
  ghost predicate ProbsDone(wordProbs: map<Bytes, map<Bytes, real>>, us: seq<LocalCounts>, classes: set<Bytes>, todo: set<Bytes>) {
    && (forall c :: c in wordProbs <==> c in classes && c !in todo)
    && (forall c :: c in wordProbs ==> IsWordProbs(wordProbs[c], us, c))
  }

  lemma ProbsPut(wordProbs: map<Bytes, map<Bytes, real>>, us: seq<LocalCounts>, classes: set<Bytes>, todo: set<Bytes>,
                 c: Bytes, probs: map<Bytes, real>)
    requires ProbsDone(wordProbs, us, classes, todo) && c in classes && IsWordProbs(probs, us, c)
    ensures ProbsDone(wordProbs[c := probs], us, classes, todo - {c})
  {
  }

  /** The classes not still to do have their prior, if there are tokens at all. */
  ghost predicate PriorsDone(priors: map<Bytes, real>, us: seq<LocalCounts>, tokens: nat, classes: set<Bytes>, todo: set<Bytes>) {
    && (forall c :: c in priors <==> c in classes && c !in todo && tokens > 0)
    && (forall c :: c in priors ==> priors[c] == Share(SumTotals(us, c), tokens))
  }

  lemma PriorsPut(priors: map<Bytes, real>, us: seq<LocalCounts>, tokens: nat, classes: set<Bytes>, todo: set<Bytes>, c: Bytes)
    requires PriorsDone(priors, us, tokens, classes, todo) && c in classes
    ensures PriorsDone(PutPrior(priors, c, SumTotals(us, c), tokens), us, tokens, classes, todo - {c})
  {
  }

  ghost predicate IsWordProbs(p: map<Bytes, real>, us: seq<LocalCounts>, c: Bytes) {
    && (forall w :: w in p <==> w in Vocab(us))
    && (forall w :: w in p ==> p[w] == Smoothed(SumCounts(us, c, w), SumTotals(us, c), |Vocab(us)|))
  }

  lemma ModelIs(us: seq<LocalCounts>, tokens: nat, model: GlobalModel)
    requires model.vocabSize == |Vocab(us)| && tokens == Total(ClassTotals(us))
    requires ProbsDone(model.wordProbs, us, Classes(us), {})
    requires PriorsDone(model.classPriors, us, tokens, Classes(us), {})
    ensures model == ModelOf(us)
  {
    forall c | c in model.wordProbs
      ensures model.wordProbs[c] == WordProbs(us, c)
    {
      SameEntries(model.wordProbs[c], WordProbs(us, c));
    }
    SameEntries(model.wordProbs, AllWordProbs(us));
    SameEntries(model.classPriors, Priors(us));
  }

  ghost predicate IsCombined(combined: Histograms, us: seq<LocalCounts>) {
    forall c, w :: Count(combined, c, w) == SumCounts(us, c, w)
  }

  /** The loop over the updates: the combined word counts, class totals and vocabulary. */
  method Combine(updates: seq<LocalCounts>) returns (combined: Histograms, totals: map<Bytes, nat>, vocab: set<Bytes>)
    ensures IsCombined(combined, updates)
    ensures totals == ClassTotals(updates)
    ensures vocab == Vocab(updates)
  {
    combined, totals, vocab := map[], map[], {};
    for i := 0 to |updates|
      invariant forall c, w :: Count(combined, c, w) == SumCounts(updates[..i], c, w)
      invariant forall w :: w in vocab <==> w in Vocab(updates[..i])
      invariant forall c :: c in totals <==> c in Classes(updates[..i])
      invariant forall c :: At(totals, c) == SumTotals(updates[..i], c)
    {
      var u := updates[i];
      assert updates[..i + 1] == updates[..i] + [u];
      UpdatesNext(updates[..i], u);
      combined, vocab := AddWordCounts(combined, vocab, u.wordCounts);
      totals := AddClassTotals(totals, u.classTotals);
    }
    assert updates[..|updates|] == updates;
    assert forall c :: c in totals ==> totals[c] == At(totals, c);
  }

  predicate HasWord(m: Histograms, c: Bytes, w: Bytes) {
    c in m && w in m[c]
  }

  /** The two inner loops over one update's word counts. */
  method AddWordCounts(combined: Histograms, vocab: set<Bytes>, update: Histograms)
    returns (combined': Histograms, vocab': set<Bytes>)
    ensures forall c, w :: Count(combined', c, w) == Count(combined, c, w) + Count(update, c, w)
    ensures forall w :: w in vocab' <==> w in vocab || exists c :: HasWord(update, c, w)
  {
    combined', vocab' := combined, vocab;
    var todo := update.Keys;
    while todo != {}
      invariant todo <= update.Keys
      invariant forall c, w :: Count(combined', c, w) == Count(combined, c, w) + if c in todo then 0 else Count(update, c, w)
      invariant forall w :: w in vocab' <==> w in vocab || exists c :: c !in todo && HasWord(update, c, w)
      decreases todo
    {
      var lbl :| lbl in todo;
      if lbl !in combined' {
        combined' := combined'[lbl := map[]];
      }
      ghost var before := combined';
      assert forall c, w :: Count(before, c, w) == Count(combined, c, w) + if c in todo then 0 else Count(update, c, w);
      var row, words := AddRow(combined'[lbl], vocab', update[lbl]);
      RowAdded(before, lbl, row, update[lbl]);
      WordsAdded(vocab, vocab', words, update, todo, lbl);
      combined' := combined'[lbl := row];
      assert forall w :: Count(update, lbl, w) == At(update[lbl], w);
      vocab' := words;
      todo := todo - {lbl};
    }
  }

  lemma RowAdded(m: Histograms, c: Bytes, row: map<Bytes, nat>, words: map<Bytes, nat>)
    requires c in m
    requires forall w :: At(row, w) == At(m[c], w) + At(words, w)
    ensures forall d, w :: Count(m[c := row], d, w) == Count(m, d, w) + if d == c then At(words, w) else 0
  {
    forall d, w
      ensures Count(m[c := row], d, w) == Count(m, d, w) + if d == c then At(words, w) else 0
    {
      assert At(row, w) == At(m[c], w) + At(words, w);
    }
  }

  lemma WordsAdded(vocab: set<Bytes>, before: set<Bytes>, after: set<Bytes>, m: Histograms, todo: set<Bytes>, c: Bytes)
    requires c in todo && c in m
    requires forall w :: w in before <==> w in vocab || exists d :: d !in todo && HasWord(m, d, w)
    requires forall w :: w in after <==> w in before || w in m[c]
    ensures forall w :: w in after <==> w in vocab || exists d :: d !in todo - {c} && HasWord(m, d, w)
  {
    forall w
      ensures w in after <==> w in vocab || exists d :: d !in todo - {c} && HasWord(m, d, w)
    {
      if w in m[c] {
        assert HasWord(m, c, w);
      } else if w in after && w !in vocab {
        var d :| d !in todo && HasWord(m, d, w);
        assert d !in todo - {c};
      } else if exists d :: d !in todo - {c} && HasWord(m, d, w) {
        var d :| d !in todo - {c} && HasWord(m, d, w);
        assert d !in todo;
      }
    }
  }

  method AddRow(row: map<Bytes, nat>, vocab: set<Bytes>, words: map<Bytes, nat>)
    returns (row': map<Bytes, nat>, vocab': set<Bytes>)
    ensures forall w :: At(row', w) == At(row, w) + At(words, w)
    ensures forall w :: w in vocab' <==> w in vocab || w in words
  {
    row', vocab' := row, vocab;
    var todo := words.Keys;
    while todo != {}
      invariant todo <= words.Keys
      invariant forall w :: At(row', w) == At(row, w) + if w in todo then 0 else At(words, w)
      invariant forall w :: w in vocab' <==> w in vocab || (w in words && w !in todo)
      decreases todo
    {
      var word :| word in todo;
      row' := Add(row', word, words[word]);
      vocab' := vocab' + {word};
      todo := todo - {word};
    }
  }

  method AddClassTotals(combined: map<Bytes, nat>, totals: map<Bytes, nat>) returns (combined': map<Bytes, nat>)
    ensures forall c :: c in combined' <==> c in combined || c in totals
    ensures forall c :: At(combined', c) == At(combined, c) + At(totals, c)
  {
    combined' := combined;
    var todo := totals.Keys;
    while todo != {}
      invariant todo <= totals.Keys
      invariant forall c :: c in combined' <==> c in combined || (c in totals && c !in todo)
      invariant forall c :: At(combined', c) == At(combined, c) + if c in todo then 0 else At(totals, c)
      decreases todo
    {
      var lbl :| lbl in todo;
      combined' := Add(combined', lbl, totals[lbl]);
      todo := todo - {lbl};
    }
  }

  /** The sum of the values of a map, added up in any order. */
  method SumUp(totals: map<Bytes, nat>) returns (sum: nat)
    ensures sum == Total(totals)
  {
    sum := 0;
    var todo := totals;
    while todo != map[]
      invariant sum + Total(todo) == Total(totals)
      decreases todo
    {
      var k :| k in todo;
      TotalSplit(todo, k);
      assert (todo - {k}).Keys == todo.Keys - {k};
      sum := sum + todo[k];
      todo := todo - {k};
    }
  }

  /** The inner loop that derives P(word|class) for every word of the vocabulary. */
  method Smooth(vocab: set<Bytes>, combined: Histograms, lbl: Bytes, total: nat, ghost us: seq<LocalCounts>)
    returns (probs: map<Bytes, real>)
    requires vocab == Vocab(us) && total == SumTotals(us, lbl)
    requires IsCombined(combined, us)
    ensures IsWordProbs(probs, us, lbl)
  {
    probs := map[];
    var todo := vocab;
    while todo != {}
      invariant todo <= vocab
      invariant forall w :: w in probs <==> w in vocab && w !in todo
      invariant forall w :: w in probs ==> probs[w] == Smoothed(Count(combined, lbl, w), total, |vocab|)
      decreases todo
    {
      var word :| word in todo;
      var count := Count(combined, lbl, word);
      probs := probs[word := Smoothed(count, total, |vocab|)];
      todo := todo - {word};
    }
  }

  lemma VocabNext(us: seq<LocalCounts>, u: LocalCounts)
    ensures forall w :: w in Vocab(us + [u]) <==> w in Vocab(us) || exists c :: HasWord(u.wordCounts, c, w)
  {
    forall w
      ensures w in Vocab(us + [u]) <==> w in Vocab(us) || exists c :: HasWord(u.wordCounts, c, w)
    {
      if c :| HasWord(u.wordCounts, c, w) {
        assert u in us + [u] && w in u.wordCounts[c];
      } else if w in Vocab(us) {
        var v, c :| v in us && c in v.wordCounts && w in v.wordCounts[c];
        assert v in us + [u];
      } else if w in Vocab(us + [u]) {
        var v, c :| v in us + [u] && c in v.wordCounts && w in v.wordCounts[c];
        assert v == u ==> HasWord(u.wordCounts, c, w);
      }
    }
  }

  lemma UpdatesNext(us: seq<LocalCounts>, u: LocalCounts)
    ensures forall w :: w in Vocab(us + [u]) <==> w in Vocab(us) || exists c :: HasWord(u.wordCounts, c, w)
    ensures forall c :: c in Classes(us + [u]) <==> c in Classes(us) || c in u.classTotals
    ensures forall c, w :: SumCounts(us + [u], c, w) == SumCounts(us, c, w) + Count(u.wordCounts, c, w)
    ensures forall c :: SumTotals(us + [u], c) == SumTotals(us, c) + At(u.classTotals, c)
  {
    VocabNext(us, u);
    forall c, w
      ensures SumCounts(us + [u], c, w) == SumCounts(us, c, w) + Count(u.wordCounts, c, w)
    {
      SumByNext(us, u, CountIn(c, w));
    }
    forall c
      ensures SumTotals(us + [u], c) == SumTotals(us, c) + At(u.classTotals, c)
    {
      SumByNext(us, u, TotalIn(c));
    }
  }
}
