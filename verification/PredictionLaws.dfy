/** What predictions and metrics mean: the answer maximises the prior times the word probabilities, each
    to the power of its word's number of occurrences, and the metrics are ratios of sets of test records
    (internal/nb/nb.go, lines 95-163). */
module PredictionLaws {
  import opened Dataset
  import opened MapSums
  import opened NaiveBayes
  import opened NaiveBayesLaws
  import opened Prediction

  // ----- Products -----

  ghost function Power(p: real, n: nat): real {
    if n == 0 then 1.0 else p * Power(p, n - 1)
  }

  /** All values of f over a set combined by op, in any order, starting from one. */
  ghost function Fold(op: (real, real) -> real, words: set<Bytes>, f: Bytes -> real): real {
    if words == {} then 1.0
    else
      var w :| w in words;
      op(f(w), Fold(op, words - {w}, f))
  }

  ghost predicate Swaps(op: (real, real) -> real, a: real, b: real, c: real) {
    op(a, op(b, c)) == op(b, op(a, c))
  }

  ghost predicate Associates(op: (real, real) -> real, a: real, b: real, c: real) {
    op(op(a, b), c) == op(a, op(b, c))
  }

  ghost predicate Lawful(op: (real, real) -> real) {
    && (forall a, b, c :: Swaps(op, a, b, c))
    && (forall a, b, c :: Associates(op, a, b, c))
  }

  lemma {:induction false} FoldSplit(op: (real, real) -> real, words: set<Bytes>, f: Bytes -> real, w: Bytes)
    requires Lawful(op) && w in words
    ensures Fold(op, words, f) == op(f(w), Fold(op, words - {w}, f))
    decreases words
  {
    var v :| v in words && Fold(op, words, f) == op(f(v), Fold(op, words - {v}, f));
    if v != w {
      FoldSplit(op, words - {v}, f, w);
      FoldSplit(op, words - {w}, f, v);
      assert words - {v} - {w} == words - {w} - {v};
      assert Swaps(op, f(v), f(w), Fold(op, words - {v} - {w}, f));
    }
  }

  lemma {:induction false} FoldSame(op: (real, real) -> real, words: set<Bytes>, f: Bytes -> real, g: Bytes -> real)
    requires Lawful(op) && forall w :: w in words ==> f(w) == g(w)
    ensures Fold(op, words, f) == Fold(op, words, g)
    decreases words
  {
    if words != {} {
      var w :| w in words;
      FoldSplit(op, words, f, w);
      FoldSplit(op, words, g, w);
      FoldSame(op, words - {w}, f, g);
    }
  }

  /** Changing one value changes the result by as much. */
  lemma FoldChange(op: (real, real) -> real, words: set<Bytes>, f: Bytes -> real, g: Bytes -> real, w: Bytes, p: real)
    requires Lawful(op) && w in words && g(w) == op(p, f(w))
    requires forall v :: v in words && v != w ==> f(v) == g(v)
    ensures Fold(op, words, g) == op(p, Fold(op, words, f))
  {
    FoldSplit(op, words, f, w);
    FoldSplit(op, words, g, w);
    FoldSame(op, words - {w}, f, g);
    assert Associates(op, p, f(w), Fold(op, words - {w}, f));
  }

  lemma {:induction false} FoldOfOnes(op: (real, real) -> real, words: set<Bytes>, f: Bytes -> real)
    requires Lawful(op) && op(1.0, 1.0) == 1.0 && forall w :: w in words ==> f(w) == 1.0
    ensures Fold(op, words, f) == 1.0
    decreases words
  {
    if words != {} {
      var w :| w in words;
      FoldSplit(op, words, f, w);
      FoldOfOnes(op, words - {w}, f);
    }
  }

  function Mul(): (real, real) -> real {
    (a: real, b: real) => a * b
  }

  lemma MulIsLawful()
    ensures Lawful(Mul())
  {
    forall a, b, c
      ensures Swaps(Mul(), a, b, c) && Associates(Mul(), a, b, c)
    {
      Rearrange(a, b, c);
    }
  }

  lemma Rearrange(a: real, b: real, c: real)
    ensures a * (b * c) == b * (a * c) && a * b * c == a * (b * c)
  {
  }

  /** The product of f over a set. */
  ghost function Product(words: set<Bytes>, f: Bytes -> real): real {
    Fold(Mul(), words, f)
  }

  // ----- Scores -----

  /** The word probabilities of a class; a class without a table knows no words. */
  function Row(model: GlobalModel, c: Bytes): map<Bytes, real> {
    if c in model.wordProbs then model.wordProbs[c] else map[]
  }

  /** P(w|c) to the power of the number of times w occurs. */
  ghost function Factor(row: map<Bytes, real>, tokens: seq<Bytes>): Bytes -> real {
    (w: Bytes) => if w in row then Power(row[w], multiset(tokens)[w]) else 1.0
  }

  /** The probability of the tokens given the class: a product over the words the class knows. */
  ghost function Likelihood(model: GlobalModel, c: Bytes, tokens: seq<Bytes>): real {
    Product(Row(model, c).Keys, Factor(Row(model, c), tokens))
  }

  /** Whether the class has a negative number for one of the tokens, which has no logarithm. */
  predicate HasNegative(model: GlobalModel, c: Bytes, tokens: seq<Bytes>) {
    exists t :: t in tokens && t in Row(model, c) && Row(model, c)[t] < 0.0
  }

  lemma FactorNext(row: map<Bytes, real>, tokens: seq<Bytes>, t: Bytes, w: Bytes)
    ensures Factor(row, tokens + [t])(w)
            == if w == t && w in row then Mul()(row[w], Factor(row, tokens)(w)) else Factor(row, tokens)(w)
  {
    assert multiset(tokens + [t])[w] == multiset(tokens)[w] + if w == t then 1 else 0;
  }

  /** One more token is one more factor, unless the class does not know it. */
  lemma FoldNext(op: (real, real) -> real, row: map<Bytes, real>, t: Bytes, f: Bytes -> real, g: Bytes -> real)
    requires Lawful(op)
    requires forall w :: g(w) == if w == t && w in row then op(row[w], f(w)) else f(w)
    ensures Fold(op, row.Keys, g) == if t in row then op(row[t], Fold(op, row.Keys, f)) else Fold(op, row.Keys, f)
  {
    if t in row {
      FoldChange(op, row.Keys, f, g, t, row[t]);
    } else {
      FoldSame(op, row.Keys, f, g);
    }
  }

  lemma LikelihoodNext(model: GlobalModel, c: Bytes, tokens: seq<Bytes>, t: Bytes)
    ensures Likelihood(model, c, tokens + [t])
            == if t in Row(model, c) then Mul()(Row(model, c)[t], Likelihood(model, c, tokens)) else Likelihood(model, c, tokens)
  {
    var row := Row(model, c);
    forall w
      ensures Factor(row, tokens + [t])(w)
              == if w == t && w in row then Mul()(row[w], Factor(row, tokens)(w)) else Factor(row, tokens)(w)
    {
      FactorNext(row, tokens, t, w);
    }
    MulIsLawful();
    FoldNext(Mul(), row, t, Factor(row, tokens), Factor(row, tokens + [t]));
  }

  lemma LikelihoodOfNothing(model: GlobalModel, c: Bytes)
    ensures Likelihood(model, c, []) == 1.0
  {
    MulIsLawful();
    FoldOfOnes(Mul(), Row(model, c).Keys, Factor(Row(model, c), []));
  }

  lemma NegativeNext(model: GlobalModel, c: Bytes, tokens: seq<Bytes>, t: Bytes)
    ensures HasNegative(model, c, tokens + [t])
            <==> HasNegative(model, c, tokens) || (t in Row(model, c) && Row(model, c)[t] < 0.0)
  {
    assert forall x :: x in tokens + [t] <==> x in tokens || x == t;
  }

  lemma ScoreNext(model: GlobalModel, c: Bytes, prior: real, tokens: seq<Bytes>, t: Bytes)
    ensures ScoreOf(model, c, prior, tokens + [t])
            == if t in Row(model, c) then ScoreOf(model, c, prior, tokens).Times(Row(model, c)[t])
               else ScoreOf(model, c, prior, tokens)
  {
    assert (tokens + [t])[..|tokens|] == tokens;
  }

  /** Whether a score is the prior times the likelihood, or has no value because of a negative number. */
  ghost predicate IsProduct(s: Score, prior: real, likelihood: real, negative: bool) {
    if negative then s.NaN? else s == Value(prior * likelihood)
  }

  lemma TimesIsProduct(s: Score, prior: real, likelihood: real, negative: bool, p: real)
    requires IsProduct(s, prior, likelihood, negative)
    ensures IsProduct(s.Times(p), prior, Mul()(p, likelihood), negative || p < 0.0)
  {
    Rearrange(prior, p, likelihood);
  }

  /** A function that starts at one and takes one more factor for every known token. */
  ghost predicate TakesFactors(l: seq<Bytes> -> real, row: map<Bytes, real>) {
    l([]) == 1.0 && forall tokens, t :: TakesFactor(l, row, tokens, t)
  }

  ghost predicate TakesFactor(l: seq<Bytes> -> real, row: map<Bytes, real>, tokens: seq<Bytes>, t: Bytes) {
    l(tokens + [t]) == if t in row then Mul()(row[t], l(tokens)) else l(tokens)
  }

  lemma {:induction false} ScoreTakesFactors(model: GlobalModel, c: Bytes, prior: real, tokens: seq<Bytes>, l: seq<Bytes> -> real)
    requires TakesFactors(l, Row(model, c))
    ensures IsProduct(ScoreOf(model, c, prior, tokens), prior, l(tokens), HasNegative(model, c, tokens))
  {
    if tokens != [] {
      var n := |tokens| - 1;
      var front, t := tokens[..n], tokens[n];
      ScoreTakesFactors(model, c, prior, front, l);
      ScoreNext(model, c, prior, front, t);
      NegativeNext(model, c, front, t);
      assert TakesFactor(l, Row(model, c), front, t);
      if t in Row(model, c) {
        TimesIsProduct(ScoreOf(model, c, prior, front), prior, l(front), HasNegative(model, c, front), Row(model, c)[t]);
      }
      assert tokens == front + [t];
    }
  }

  ghost function LikelihoodOf(model: GlobalModel, c: Bytes): seq<Bytes> -> real {
    (tokens: seq<Bytes>) => Likelihood(model, c, tokens)
  }

  lemma LikelihoodTakesFactors(model: GlobalModel, c: Bytes)
    ensures TakesFactors(LikelihoodOf(model, c), Row(model, c))
  {
    LikelihoodOfNothing(model, c);
    forall tokens, t
      ensures TakesFactor(LikelihoodOf(model, c), Row(model, c), tokens, t)
    {
      LikelihoodNext(model, c, tokens, t);
    }
  }

  /** A score is the prior times the likelihood, and it has no value exactly when a known token has a
      negative probability. Unknown words carry no information. */
  lemma ScoreIsProduct(model: GlobalModel, c: Bytes, prior: real, tokens: seq<Bytes>)
    ensures IsProduct(ScoreOf(model, c, prior, tokens), prior, Likelihood(model, c, tokens), HasNegative(model, c, tokens))
  {
    LikelihoodTakesFactors(model, c);
    ScoreTakesFactors(model, c, prior, tokens, LikelihoodOf(model, c));
  }

  // ----- The answer is a maximiser -----

  /** A class with a positive prior whose probability can be computed. */
  predicate Competes(model: GlobalModel, tokens: seq<Bytes>, c: Bytes) {
    c in model.classPriors && model.classPriors[c] > 0.0 && !HasNegative(model, c, tokens)
  }

  ghost function Posterior(model: GlobalModel, tokens: seq<Bytes>, c: Bytes): real
    requires c in model.classPriors
  {
    model.classPriors[c] * Likelihood(model, c, tokens)
  }

  lemma EligibleIs(model: GlobalModel, tokens: seq<Bytes>, c: Bytes)
    ensures Eligible(model, tokens, c) <==> Competes(model, tokens, c) && Posterior(model, tokens, c) > 0.0
    ensures Eligible(model, tokens, c) ==> ScoreIn(model, tokens, c) == Posterior(model, tokens, c)
  {
    if c in model.classPriors {
      ScoreIsProduct(model, c, model.classPriors[c], tokens);
    }
  }

  /** The answer is a class whose prior times the likelihood of the text is positive and at least that of
      every other competing class; it is "" exactly when there is no such class, or when that is the name
      of the class. */
  lemma AnswerMaximisesPosterior(model: GlobalModel, text: Bytes, answer: Bytes)
    requires IsPrediction(model, text, answer)
    ensures var tokens := Tokenize(text);
            if exists c :: Competes(model, tokens, c) && Posterior(model, tokens, c) > 0.0 then
              && Competes(model, tokens, answer) && Posterior(model, tokens, answer) > 0.0
              && forall c :: Competes(model, tokens, c) ==> Posterior(model, tokens, c) <= Posterior(model, tokens, answer)
            else answer == ""
  {
    var tokens := Tokenize(text);
    forall c
      ensures Eligible(model, tokens, c) <==> Competes(model, tokens, c) && Posterior(model, tokens, c) > 0.0
      ensures Eligible(model, tokens, c) ==> ScoreIn(model, tokens, c) == Posterior(model, tokens, c)
    {
      EligibleIs(model, tokens, c);
    }
    if c :| Competes(model, tokens, c) && Posterior(model, tokens, c) > 0.0 {
      assert Eligible(model, tokens, c);
      forall d | Competes(model, tokens, d)
        ensures Posterior(model, tokens, d) <= Posterior(model, tokens, answer)
      {
        if Posterior(model, tokens, d) > 0.0 {
          assert Eligible(model, tokens, d);
        }
      }
    }
  }

  /** On an aggregated model the answer has, among the classes with tokens, the largest share of the
      tokens times the product of its smoothed word probabilities. */
  lemma AggregatedAnswerMaximises(us: seq<LocalCounts>, text: Bytes, answer: Bytes)
    requires IsPrediction(ModelOf(us), text, answer) && Total(ClassTotals(us)) > 0
    ensures SumTotals(us, answer) > 0 && answer in Priors(us)
    ensures forall c :: SumTotals(us, c) > 0 ==>
              c in Priors(us)
              && Posterior(ModelOf(us), Tokenize(text), c) <= Posterior(ModelOf(us), Tokenize(text), answer)
  {
    var model, tokens := ModelOf(us), Tokenize(text);
    AggregatedPrediction(us, text, answer);
    AnswerMaximisesPosterior(model, text, answer);
    forall c | SumTotals(us, c) > 0
      ensures c in Priors(us) && Competes(model, tokens, c) && Posterior(model, tokens, c) > 0.0
    {
      assert Eligible(model, tokens, c);
      EligibleIs(model, tokens, c);
    }
  }

  // ----- The metrics -----

  /** The test records that are (or are not) spam and were (or were not) called spam. */
  function Which(test: seq<Record>, answers: seq<Bytes>, spam: bool, called: bool): set<nat>
    requires |test| == |answers|
  {
    set i: nat | i < |test| && (test[i].lbl == "spam") == spam && (answers[i] == "spam") == called
  }

  lemma WhichNext(test: seq<Record>, answers: seq<Bytes>, n: nat, spam: bool, called: bool)
    requires |test| == |answers| == n + 1
    ensures var before := Which(test[..n], answers[..n], spam, called);
            Which(test, answers, spam, called)
            == if (test[n].lbl == "spam") == spam && (answers[n] == "spam") == called then before + {n} else before
  {
  }

  lemma {:induction false} TallyIsSize(test: seq<Record>, answers: seq<Bytes>, spam: bool, called: bool)
    requires |test| == |answers|
    ensures Tally(test, answers, spam, called) == |Which(test, answers, spam, called)|
  {
    if test != [] {
      var n: nat := |test| - 1;
      TallyIsSize(test[..n], answers[..n], spam, called);
      WhichNext(test, answers, n, spam, called);
    }
  }

  /** The records that are spam, those called spam, those that are both, and those called what they are. */
  function SpamRecords(test: seq<Record>): set<nat> {
    set i: nat | i < |test| && test[i].lbl == "spam"
  }

  function CalledSpam(answers: seq<Bytes>): set<nat> {
    set i: nat | i < |answers| && answers[i] == "spam"
  }

  function CalledRight(test: seq<Record>, answers: seq<Bytes>): set<nat>
    requires |test| == |answers|
  {
    set i: nat | i < |test| && (test[i].lbl == "spam" <==> answers[i] == "spam")
  }

  /** x is the fraction part/whole, and zero when there is nothing to divide by. */
  ghost predicate IsRatio(x: real, part: nat, whole: nat) {
    if whole == 0 then x == 0.0 else x * whole as real == part as real
  }

  /** Precision is the share of the called that are spam, recall the share of the spam that was called,
      accuracy the share of all records called right, and F1 the harmonic mean of the first two. */
  ghost predicate Describes(m: Metrics, test: seq<Record>, answers: seq<Bytes>)
    requires |test| == |answers|
  {
    var hits := |SpamRecords(test) * CalledSpam(answers)|;
    && IsRatio(m.precision, hits, |CalledSpam(answers)|)
    && IsRatio(m.recall, hits, |SpamRecords(test)|)
    && IsRatio(m.accuracy, |CalledRight(test, answers)|, |test|)
    && IsHarmonic(m.f1, m.precision, m.recall)
  }

  ghost predicate IsHarmonic(x: real, p: real, r: real) {
    if p + r > 0.0 then x * (p + r) == 2.0 * p * r else x == 0.0
  }

  lemma Disjoint(a: set<nat>, b: set<nat>, all: set<nat>)
    requires a !! b && (forall i :: i in all <==> i in a || i in b)
    ensures |all| == |a| + |b|
  {
    assert all == a + b;
  }

  /** The hits among the called, among the spam, and among those called right. */
  lemma CalledSize(test: seq<Record>, answers: seq<Bytes>)
    requires |test| == |answers|
    ensures |Which(test, answers, true, true)| + |Which(test, answers, false, true)| == |CalledSpam(answers)|
  {
    Disjoint(Which(test, answers, true, true), Which(test, answers, false, true), CalledSpam(answers));
  }

  lemma SpamSize(test: seq<Record>, answers: seq<Bytes>)
    requires |test| == |answers|
    ensures |Which(test, answers, true, true)| + |Which(test, answers, true, false)| == |SpamRecords(test)|
  {
    Disjoint(Which(test, answers, true, true), Which(test, answers, true, false), SpamRecords(test));
  }

  lemma RightSize(test: seq<Record>, answers: seq<Bytes>)
    requires |test| == |answers|
    ensures |Which(test, answers, true, true)| + |Which(test, answers, false, false)| == |CalledRight(test, answers)|
  {
    Disjoint(Which(test, answers, true, true), Which(test, answers, false, false), CalledRight(test, answers));
  }

  lemma HitSize(test: seq<Record>, answers: seq<Bytes>)
    requires |test| == |answers|
    ensures Which(test, answers, true, true) == SpamRecords(test) * CalledSpam(answers)
  {
  }

  /** The confusion counts in terms of sets of records. */
  ghost predicate Sizes(c: Confusion, hits: nat, called: nat, spam: nat, right: nat, all: nat) {
    && c.tp == hits && c.tp + c.fp == called && c.tp + c.fn == spam
    && c.tp + c.tn == right && c.tp + c.fp + c.tn + c.fn == all
  }

  lemma ConfusionSizes(test: seq<Record>, answers: seq<Bytes>)
    requires |test| == |answers|
    ensures Sizes(ConfusionOf(test, answers), |SpamRecords(test) * CalledSpam(answers)|, |CalledSpam(answers)|,
                  |SpamRecords(test)|, |CalledRight(test, answers)|, |test|)
  {
    TallyIsSize(test, answers, true, true);
    TallyIsSize(test, answers, false, true);
    TallyIsSize(test, answers, false, false);
    TallyIsSize(test, answers, true, false);
    HitSize(test, answers);
    CalledSize(test, answers);
    SpamSize(test, answers);
    RightSize(test, answers);
    ConfusionCounts(test, answers);
  }

  lemma RateIs(x: real, part: nat, whole: nat)
    requires part <= whole
    ensures IsRatio(x, part, whole) <==> x == Rate(part, whole)
  {
    if whole > 0 {
      var q := part as real / whole as real;
      assert q * whole as real == part as real;
      assert (x - q) * whole as real == x * whole as real - part as real;
    }
  }

  lemma HarmonicIs(x: real, p: real, r: real)
    ensures IsHarmonic(x, p, r) <==> x == HarmonicMean(p, r)
  {
    if p + r > 0.0 {
      HarmonicTimes(p, r);
      assert (x - HarmonicMean(p, r)) * (p + r) == x * (p + r) - 2.0 * p * r;
    }
  }

  lemma MetricsOfSizes(c: Confusion, m: Metrics, hits: nat, called: nat, spam: nat, right: nat, all: nat)
    requires Sizes(c, hits, called, spam, right, all)
    ensures m == MetricsOf(c)
            <==> IsRatio(m.precision, hits, called) && IsRatio(m.recall, hits, spam) && IsRatio(m.accuracy, right, all)
                 && IsHarmonic(m.f1, m.precision, m.recall)
  {
    RateIs(m.precision, hits, called);
    RateIs(m.recall, hits, spam);
    RateIs(m.accuracy, right, all);
    HarmonicIs(m.f1, m.precision, m.recall);
  }

  /** The metrics computed for some answers are exactly those that describe them. */
  lemma MetricsExactlyDescribe(test: seq<Record>, answers: seq<Bytes>, m: Metrics)
    requires |test| == |answers|
    ensures m == MetricsOf(ConfusionOf(test, answers)) <==> Describes(m, test, answers)
  {
    ConfusionSizes(test, answers);
    MetricsOfSizes(ConfusionOf(test, answers), m, |SpamRecords(test) * CalledSpam(answers)|, |CalledSpam(answers)|,
                   |SpamRecords(test)|, |CalledRight(test, answers)|, |test|);
  }

  /** An evaluation's metrics describe admissible answers to the test texts, and nothing else is one. */
  lemma EvaluationMeans(model: GlobalModel, test: seq<Record>, m: Metrics)
    ensures IsEvaluation(model, test, m)
            <==> exists answers :: ArePredictions(model, test, answers) && Describes(m, test, answers)
  {
    if IsEvaluation(model, test, m) {
      var answers :| ArePredictions(model, test, answers) && m == MetricsOf(ConfusionOf(test, answers));
      MetricsExactlyDescribe(test, answers, m);
    }
    if answers :| ArePredictions(model, test, answers) && Describes(m, test, answers) {
      MetricsExactlyDescribe(test, answers, m);
    }
  }
}
