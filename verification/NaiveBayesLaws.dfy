/** What aggregation promises: the order of the updates and the way the records were split among
    the workers do not matter, and the parameters are probability distributions. */
module NaiveBayesLaws {
  import opened Dataset
  import opened MapSums
  import opened NaiveBayes

  // ----- What is counted -----

  /** The positions at which a word stands. */
  function PositionsOf(tokens: seq<Bytes>, w: Bytes): set<nat> {
    set j: nat | j < |tokens| && tokens[j] == w
  }

  lemma {:induction false} PositionsAreMultiplicity(tokens: seq<Bytes>, w: Bytes)
    ensures multiset(tokens)[w] == |PositionsOf(tokens, w)|
  {
    if tokens != [] {
      var n: nat := |tokens| - 1;
      var before := PositionsOf(tokens[..n], w);
      PositionsAreMultiplicity(tokens[..n], w);
      assert tokens == tokens[..n] + [tokens[n]];
      assert PositionsOf(tokens, w) == if tokens[n] == w then before + {n} else before;
    }
  }

  /** What one record adds to the count of a word for a class, and to the class's total. */
  function WordIn(c: Bytes, w: Bytes): Record -> nat {
    (r: Record) => if r.lbl == c then |PositionsOf(Tokenize(r.text), w)| else 0
  }

  function LengthIn(c: Bytes): Record -> nat {
    (r: Record) => if r.lbl == c then |Tokenize(r.text)| else 0
  }

  lemma {:induction false} TokensAddUp(records: seq<Record>, c: Bytes, w: Bytes)
    ensures multiset(TokensOf(records, c))[w] == SumBy(records, WordIn(c, w))
    ensures |TokensOf(records, c)| == SumBy(records, LengthIn(c))
  {
    if records != [] {
      var n := |records| - 1;
      TokensAddUp(records[..n], c, w);
      PositionsAreMultiplicity(Tokenize(records[n].text), w);
    }
  }

  /** CountLocal's count of a word for a class is the number of positions at which the word stands in the
      class's texts, its total the number of the class's tokens; a class has a row exactly when a record
      has its label, a word an entry and a class a total exactly when it is positive. */
  lemma CountsAreOccurrences(records: seq<Record>, c: Bytes, w: Bytes)
    ensures Count(CountsOf(records).wordCounts, c, w) == SumBy(records, WordIn(c, w))
    ensures At(CountsOf(records).classTotals, c) == SumBy(records, LengthIn(c))
    ensures c in CountsOf(records).wordCounts <==> exists r :: r in records && r.lbl == c
    ensures HasWord(CountsOf(records).wordCounts, c, w) <==> SumBy(records, WordIn(c, w)) > 0
    ensures c in CountsOf(records).classTotals <==> SumBy(records, LengthIn(c)) > 0
  {
    CountsLookup(records, c, w);
    TokensAddUp(records, c, w);
    CountsNoZeros(records);
  }

  // ----- The order of the updates -----

  /** The model depends on the multiset of updates only. */
  lemma ModelIgnoresOrder(us: seq<LocalCounts>, vs: seq<LocalCounts>)
    requires multiset(us) == multiset(vs)
    ensures ModelOf(us) == ModelOf(vs)
  {
    forall u
      ensures u in us <==> u in vs
    {
      assert u in us <==> u in multiset(us);
      assert u in vs <==> u in multiset(vs);
    }
    assert Vocab(us) == Vocab(vs);
    assert Classes(us) == Classes(vs);
    forall c, w
      ensures SumCounts(us, c, w) == SumCounts(vs, c, w)
    {
      SumByPermutation(us, vs, CountIn(c, w));
    }
    forall c
      ensures SumTotals(us, c) == SumTotals(vs, c)
    {
      SumByPermutation(us, vs, TotalIn(c));
    }
    SameSums(us, vs);
  }

  /** Equal vocabularies, classes and sums give equal parameters. */
  lemma SameSums(us: seq<LocalCounts>, vs: seq<LocalCounts>)
    requires Vocab(us) == Vocab(vs) && Classes(us) == Classes(vs)
    requires forall c, w :: SumCounts(us, c, w) == SumCounts(vs, c, w)
    requires forall c :: SumTotals(us, c) == SumTotals(vs, c)
    ensures ModelOf(us) == ModelOf(vs)
  {
    SameEntries(ClassTotals(us), ClassTotals(vs));
    forall c | c in Classes(us)
      ensures WordProbs(us, c) == WordProbs(vs, c)
    {
      SameEntries(WordProbs(us, c), WordProbs(vs, c));
    }
    SameEntries(AllWordProbs(us), AllWordProbs(vs));
    SameEntries(Priors(us), Priors(vs));
  }

  // ----- The split into shards -----

  /** What the workers compute from their shards. */
  function Locals(shards: seq<seq<Record>>): (us: seq<LocalCounts>)
    ensures |us| == |shards|
    ensures forall i :: 0 <= i < |shards| ==> us[i] == CountsOf(shards[i])
  {
    if shards == [] then [] else Locals(shards[..|shards| - 1]) + [CountsOf(shards[|shards| - 1])]
  }

  lemma {:induction false} TokensAppend(a: seq<Record>, b: seq<Record>, c: Bytes)
    ensures TokensOf(a + b, c) == TokensOf(a, c) + TokensOf(b, c)
  {
    if b == [] {
      assert a + b == a;
    } else {
      var n := |b| - 1;
      assert a + b == a + b[..n] + [b[n]];
      assert b == b[..n] + [b[n]];
      TokensNext(a + b[..n], b[n], c);
      TokensNext(b[..n], b[n], c);
      TokensAppend(a, b[..n], c);
    }
  }

  lemma CountsLookup(records: seq<Record>, c: Bytes, w: Bytes)
    ensures Count(WordCountsOf(records), c, w) == multiset(TokensOf(records, c))[w]
    ensures At(ClassTotalsOf(records), c) == |TokensOf(records, c)|
  {
    if c !in Labels(records) {
      NoTokens(records, c);
    }
  }

  /** Counting commutes with splitting: the sums over the shards are the counts of the whole. */
  lemma {:induction false} ShardSums(shards: seq<seq<Record>>, c: Bytes, w: Bytes)
    ensures SumCounts(Locals(shards), c, w) == multiset(TokensOf(Flatten(shards), c))[w]
    ensures SumTotals(Locals(shards), c) == |TokensOf(Flatten(shards), c)|
  {
    if shards != [] {
      var n := |shards| - 1;
      ShardSums(shards[..n], c, w);
      SumByNext(Locals(shards[..n]), CountsOf(shards[n]), CountIn(c, w));
      SumByNext(Locals(shards[..n]), CountsOf(shards[n]), TotalIn(c));
      CountsLookup(shards[n], c, w);
      TokensAppend(Flatten(shards[..n]), shards[n], c);
    }
  }

  /** Counts as CountLocal makes them: no entry is zero. */
  ghost predicate NoZeros(us: seq<LocalCounts>) {
    && (forall u, c, w :: u in us && HasWord(u.wordCounts, c, w) ==> u.wordCounts[c][w] > 0)
    && (forall u, c :: u in us && c in u.classTotals ==> u.classTotals[c] > 0)
  }

  lemma LocalsNoZeros(shards: seq<seq<Record>>)
    ensures NoZeros(Locals(shards))
  {
    var us := Locals(shards);
    forall u | u in us
      ensures forall c, w :: HasWord(u.wordCounts, c, w) ==> u.wordCounts[c][w] > 0
      ensures forall c :: c in u.classTotals ==> u.classTotals[c] > 0
    {
      var i :| 0 <= i < |us| && us[i] == u;
      CountsNoZeros(shards[i]);
    }
  }

  lemma CountsNoZeros(records: seq<Record>)
    ensures forall c, w :: HasWord(WordCountsOf(records), c, w) ==> WordCountsOf(records)[c][w] > 0
    ensures forall c :: c in ClassTotalsOf(records) ==> ClassTotalsOf(records)[c] > 0
  {
    forall c, w | HasWord(WordCountsOf(records), c, w)
      ensures WordCountsOf(records)[c][w] > 0
    {
      assert WordCountsOf(records)[c] == Histogram(TokensOf(records, c));
    }
  }

  /** Without zero entries the vocabulary and the classes can be read off the sums. */
  lemma VocabBySums(us: seq<LocalCounts>, w: Bytes)
    requires NoZeros(us)
    ensures w in Vocab(us) <==> exists c :: SumCounts(us, c, w) > 0
  {
    if w in Vocab(us) {
      var u, c :| u in us && c in u.wordCounts && w in u.wordCounts[c];
      assert HasWord(u.wordCounts, c, w);
      SumByMember(us, u, CountIn(c, w));
      assert SumCounts(us, c, w) > 0;
    }
    if c :| SumCounts(us, c, w) > 0 {
      var u := SumByPositive(us, CountIn(c, w));
      assert c in u.wordCounts && w in u.wordCounts[c];
    }
  }

  lemma ClassesBySums(us: seq<LocalCounts>, c: Bytes)
    requires NoZeros(us)
    ensures c in Classes(us) <==> SumTotals(us, c) > 0
  {
    if c in Classes(us) {
      var u :| u in us && c in u.classTotals;
      SumByMember(us, u, TotalIn(c));
    }
    if SumTotals(us, c) > 0 {
      var u := SumByPositive(us, TotalIn(c));
      assert c in u.classTotals;
    }
  }

  lemma SameSumsSameModel(us: seq<LocalCounts>, vs: seq<LocalCounts>)
    requires NoZeros(us) && NoZeros(vs)
    requires forall c, w :: SumCounts(us, c, w) == SumCounts(vs, c, w)
    requires forall c :: SumTotals(us, c) == SumTotals(vs, c)
    ensures ModelOf(us) == ModelOf(vs)
  {
    forall w
      ensures w in Vocab(us) <==> w in Vocab(vs)
    {
      VocabBySums(us, w);
      VocabBySums(vs, w);
    }
    assert Vocab(us) == Vocab(vs);
    forall c
      ensures c in Classes(us) <==> c in Classes(vs)
    {
      ClassesBySums(us, c);
      ClassesBySums(vs, c);
    }
    assert Classes(us) == Classes(vs);
    SameSums(us, vs);
  }

  /** Aggregation cannot tell how the records were split: any two shardings of the same records
      give the same model. */
  lemma ModelIgnoresSplit(a: seq<seq<Record>>, b: seq<seq<Record>>)
    requires Flatten(a) == Flatten(b)
    ensures ModelOf(Locals(a)) == ModelOf(Locals(b))
  {
    LocalsNoZeros(a);
    LocalsNoZeros(b);
    forall c, w
      ensures SumCounts(Locals(a), c, w) == SumCounts(Locals(b), c, w)
    {
      ShardSums(a, c, w);
      ShardSums(b, c, w);
    }
    forall c
      ensures SumTotals(Locals(a), c) == SumTotals(Locals(b), c)
    {
      ShardSums(a, c, "");
      ShardSums(b, c, "");
    }
    SameSumsSameModel(Locals(a), Locals(b));
  }

  /** The model a single trainer gets from the whole training set. */
  ghost function CentralModel(train: seq<Record>): GlobalModel {
    ModelOf([CountsOf(train)])
  }

  /** Federated aggregation over any sharding is central training. */
  lemma FederatedIsCentral(shards: seq<seq<Record>>)
    ensures ModelOf(Locals(shards)) == CentralModel(Flatten(shards))
  {
    var whole := Flatten(shards);
    assert Flatten([whole]) == whole by {
      assert [whole][..0] == [];
      assert [] + whole == whole;
    }
    ModelIgnoresSplit(shards, [whole]);
    assert Locals([whole]) == [CountsOf(whole)];
  }

  // ----- Probability distributions -----

  /** The combined counts of one class over the vocabulary. */
  ghost function WordTotals(us: seq<LocalCounts>, c: Bytes): map<Bytes, nat> {
    map w | w in Vocab(us) :: SumCounts(us, c, w)
  }

  lemma WordProbsPositive(us: seq<LocalCounts>, c: Bytes)
    ensures forall w :: w in WordProbs(us, c) ==> WordProbs(us, c)[w] > 0.0
  {
    forall w | w in WordProbs(us, c)
      ensures WordProbs(us, c)[w] > 0.0
    {
      Fraction((SumCounts(us, c, w) + 1) as real, (SumTotals(us, c) + |Vocab(us)|) as real);
    }
  }

  /** The numerators of P(.|c): the combined counts, each plus one. */
  ghost predicate Numerators(n: map<Bytes, int>, us: seq<LocalCounts>, c: Bytes) {
    && (forall w :: w in n <==> w in Vocab(us))
    && (forall w :: w in n ==> n[w] == SumCounts(us, c, w) + 1)
  }

  lemma NumeratorsTotal(n: map<Bytes, int>, us: seq<LocalCounts>, c: Bytes)
    requires Numerators(n, us, c)
    ensures Total(n) == Total(WordTotals(us, c)) + |Vocab(us)|
  {
    TotalPlusOne(WordTotals(us, c), n);
    assert WordTotals(us, c).Keys == Vocab(us);
  }

  lemma WordProbsSum(n: map<Bytes, int>, us: seq<LocalCounts>, c: Bytes, d: real)
    requires Numerators(n, us, c)
    requires Vocab(us) != {} && d == (SumTotals(us, c) + |Vocab(us)|) as real
    ensures RealTotal(WordProbs(us, c)) == Over(d)(Total(n))
  {
    var p := WordProbs(us, c);
    forall w | w in p
      ensures p[w] == Over(d)(n[w])
    {
    }
    OverIsAdditive(d);
    RealTotalAdditive(p, n, Over(d));
  }

  /** For arbitrary updates P(.|c) is a distribution exactly when the class total is the sum of the
      class's word counts. */
  lemma DistributionExactlyWhenTotalsAgree(us: seq<LocalCounts>, c: Bytes)
    requires Vocab(us) != {}
    ensures RealTotal(WordProbs(us, c)) == 1.0 <==> SumTotals(us, c) == Total(WordTotals(us, c))
  {
    var n: map<Bytes, int> := map w | w in Vocab(us) :: SumCounts(us, c, w) + 1;
    var d := (SumTotals(us, c) + |Vocab(us)|) as real;
    NumeratorsTotal(n, us, c);
    WordProbsSum(n, us, c, d);
    Fraction(Total(n) as real, d);
  }

  /** The multiplicities of a sequence's elements add up to its length. */
  lemma {:induction false} HistogramTotal(tokens: seq<Bytes>, words: set<Bytes>, m: map<Bytes, int>)
    requires forall t :: t in tokens ==> t in words
    requires forall w :: w in m <==> w in words
    requires forall w :: w in m ==> m[w] == multiset(tokens)[w]
    ensures Total(m) == |tokens|
  {
    if tokens == [] {
      assert SameLookups(m, map[]);
      TotalByLookup(m, map[]);
    } else {
      var n := |tokens| - 1;
      var t := tokens[n];
      assert tokens == tokens[..n] + [t];
      assert t in words;
      var m' := m[t := m[t] - 1];
      forall w | w in m'
        ensures m'[w] == multiset(tokens[..n])[w]
      {
      }
      HistogramTotal(tokens[..n], words, m');
      TotalPut(m, t, m[t] - 1);
    }
  }

  /** On counts that come from CountLocal every P(.|c) is a distribution. */
  lemma WordProbsAreDistribution(shards: seq<seq<Record>>, c: Bytes)
    requires c in Classes(Locals(shards))
    ensures RealTotal(WordProbs(Locals(shards), c)) == 1.0
    ensures forall w :: w in WordProbs(Locals(shards), c) ==> WordProbs(Locals(shards), c)[w] > 0.0
  {
    var us := Locals(shards);
    var tokens := TokensOf(Flatten(shards), c);
    LocalsNoZeros(shards);
    ClassesBySums(us, c);
    ShardSums(shards, c, "");
    forall w
      ensures SumCounts(us, c, w) == multiset(tokens)[w]
      ensures w in tokens ==> w in Vocab(us)
    {
      ShardSums(shards, c, w);
      VocabBySums(us, w);
      if w in tokens {
        assert SumCounts(us, c, w) > 0;
      }
    }
    assert tokens[0] in Vocab(us);
    HistogramTotal(tokens, Vocab(us), WordTotals(us, c));
    DistributionExactlyWhenTotalsAgree(us, c);
    WordProbsPositive(us, c);
  }

  /** The priors add up to one as soon as there is a token, whatever the updates, and a class's
      prior is positive exactly when its total is. */
  lemma PriorsAreDistribution(us: seq<LocalCounts>)
    requires Total(ClassTotals(us)) > 0
    ensures RealTotal(Priors(us)) == 1.0
    ensures forall c :: c in Classes(us) <==> c in Priors(us)
    ensures forall c :: c in Priors(us) ==> 0.0 <= Priors(us)[c] && (Priors(us)[c] > 0.0 <==> SumTotals(us, c) > 0)
  {
    var tokens := Total(ClassTotals(us)) as real;
    forall c | c in Priors(us)
      ensures 0.0 <= Priors(us)[c] && (Priors(us)[c] > 0.0 <==> SumTotals(us, c) > 0)
    {
      Fraction(SumTotals(us, c) as real, tokens);
    }
    OverIsAdditive(tokens);
    RealTotalAdditive(Priors(us), ClassTotals(us), Over(tokens));
    Fraction(tokens, tokens);
  }

  /** The word probabilities of a class are in proportion to the combined counts plus one, and with their
      sum this determines them. */
  lemma WordProbsInProportion(us: seq<LocalCounts>, c: Bytes, v: Bytes, w: Bytes)
    requires v in Vocab(us) && w in Vocab(us)
    ensures WordProbs(us, c)[v] * (SumCounts(us, c, w) + 1) as real == WordProbs(us, c)[w] * (SumCounts(us, c, v) + 1) as real
  {
    CrossFractions((SumCounts(us, c, v) + 1) as real, (SumCounts(us, c, w) + 1) as real,
                   (SumTotals(us, c) + |Vocab(us)|) as real);
  }

  /** The priors are in proportion to the class totals. */
  lemma PriorsInProportion(us: seq<LocalCounts>, c: Bytes, d: Bytes)
    requires c in Priors(us) && d in Priors(us)
    ensures Priors(us)[c] * SumTotals(us, d) as real == Priors(us)[d] * SumTotals(us, c) as real
  {
    CrossFractions(SumTotals(us, c) as real, SumTotals(us, d) as real, Total(ClassTotals(us)) as real);
  }

  lemma CrossFractions(a: real, b: real, d: real)
    requires d > 0.0
    ensures a / d * b == b / d * a
  {
    var x, y := a / d, b / d;
    assert x * d == a && y * d == b;
    assert x * b == x * (y * d) == y * (x * d);
  }
}
