/** Classifying a text and scoring a model on a test set (internal/nb/nb.go, lines 95-163).
    The log-probability score of the program is replaced by the product it is the logarithm of:
    math.Inf(-1), the logarithm of zero, is the product zero, and a logarithm that is not a number
    is a score with no value. Go leaves the order in which classes are tried unspecified. */
module Prediction {
  import opened Dataset
  import opened MapSums
  import opened NaiveBayes
  import opened NaiveBayesLaws

  datatype Score = NaN | Value(v: real)
  {
    /** Adding the logarithm of p. */
    function Times(p: real): Score {
      if NaN? || p < 0.0 then NaN else Value(v * p)
    }
  }

  /** prior times the product of P(tok|class) over the known tokens. */
  function ScoreOf(model: GlobalModel, c: Bytes, prior: real, tokens: seq<Bytes>): Score {
    if tokens == [] then Value(prior)
    else
      var n := |tokens| - 1;
      var s := ScoreOf(model, c, prior, tokens[..n]);
      if c in model.wordProbs && tokens[n] in model.wordProbs[c] then s.Times(model.wordProbs[c][tokens[n]]) else s
  }

  /** A class with a positive prior and a score above that of no class at all. */
  predicate Eligible(model: GlobalModel, tokens: seq<Bytes>, c: Bytes) {
    && c in model.classPriors
    && model.classPriors[c] > 0.0
    && ScoreOf(model, c, model.classPriors[c], tokens).Value?
    && ScoreOf(model, c, model.classPriors[c], tokens).v > 0.0
  }

  function ScoreIn(model: GlobalModel, tokens: seq<Bytes>, c: Bytes): real
    requires Eligible(model, tokens, c)
  {
    ScoreOf(model, c, model.classPriors[c], tokens).v
  }

  ghost predicate IsBest(model: GlobalModel, tokens: seq<Bytes>, c: Bytes) {
    && Eligible(model, tokens, c)
    && forall d :: Eligible(model, tokens, d) ==> ScoreIn(model, tokens, d) <= ScoreIn(model, tokens, c)
  }

  /** The answers Predict may give: a best class, or "" when no class is eligible. */
  ghost predicate IsPrediction(model: GlobalModel, text: Bytes, answer: Bytes) {
    var tokens := Tokenize(text);
    if exists c :: Eligible(model, tokens, c) then IsBest(model, tokens, answer) else answer == ""
  }

  method Predict(model: GlobalModel, text: Bytes) returns (best: Bytes)
    ensures IsPrediction(model, text, best)
  {
    var tokens := Tokenize(text);
    best := PredictTokens(model, tokens);
  }

  method PredictTokens(model: GlobalModel, tokens: seq<Bytes>) returns (best: Bytes)
    ensures if exists c :: Eligible(model, tokens, c) then IsBest(model, tokens, best) else best == ""
  {
    best := "";
    var bestScore := 0.0;
    var todo := model.classPriors.Keys;
    while todo != {}
      invariant todo <= model.classPriors.Keys
      invariant bestScore >= 0.0
      invariant bestScore == 0.0 ==> best == ""
      invariant bestScore > 0.0 ==> Eligible(model, tokens, best) && ScoreIn(model, tokens, best) == bestScore
      invariant forall c :: Eligible(model, tokens, c) && c !in todo ==> ScoreIn(model, tokens, c) <= bestScore
      decreases todo
    {
      var lbl :| lbl in todo;
      todo := todo - {lbl};
      var prior := model.classPriors[lbl];
      if prior <= 0.0 {
        continue;
      }
      var score := Value(prior);
      for i := 0 to |tokens|
        invariant score == ScoreOf(model, lbl, prior, tokens[..i])
      {
        assert tokens[..i + 1][..i] == tokens[..i];
        if lbl in model.wordProbs && tokens[i] in model.wordProbs[lbl] {
          score := score.Times(model.wordProbs[lbl][tokens[i]]);
        }
      }
      assert tokens[..|tokens|] == tokens;
      if score.Value? && score.v > bestScore {
        bestScore := score.v;
        best := lbl;
      }
    }
  }

  // ----- Predictions on aggregated models -----

  /** When only one class is best, the order in which classes are tried does not matter. */
  lemma UniqueBestIsOrderFree(model: GlobalModel, text: Bytes, a: Bytes, b: Bytes)
    requires IsPrediction(model, text, a) && IsPrediction(model, text, b)
    requires forall c, d :: IsBest(model, Tokenize(text), c) && IsBest(model, Tokenize(text), d) ==> c == d
    ensures a == b
  {
  }

  ghost predicate PositiveProbs(model: GlobalModel) {
    forall c, w :: c in model.wordProbs && w in model.wordProbs[c] ==> model.wordProbs[c][w] > 0.0
  }

  lemma {:induction false} ScorePositive(model: GlobalModel, c: Bytes, prior: real, tokens: seq<Bytes>)
    requires PositiveProbs(model) && prior > 0.0
    ensures ScoreOf(model, c, prior, tokens).Value? && ScoreOf(model, c, prior, tokens).v > 0.0
  {
    if tokens != [] {
      var n := |tokens| - 1;
      ScorePositive(model, c, prior, tokens[..n]);
      if c in model.wordProbs && tokens[n] in model.wordProbs[c] {
        PositiveProduct(ScoreOf(model, c, prior, tokens[..n]).v, model.wordProbs[c][tokens[n]]);
      }
    }
  }

  lemma AggregatedProbsPositive(us: seq<LocalCounts>)
    ensures PositiveProbs(ModelOf(us))
  {
    forall c | c in AllWordProbs(us)
      ensures forall w :: w in AllWordProbs(us)[c] ==> AllWordProbs(us)[c][w] > 0.0
    {
      WordProbsPositive(us, c);
    }
  }

  lemma PositiveProduct(a: real, b: real)
    requires a > 0.0 && b > 0.0
    ensures a * b > 0.0
  {
  }

  /** On an aggregated model every class with tokens competes, so some class is predicted exactly
      when there is a token; "" is then an answer only if it is the label of a class. */
  lemma AggregatedPrediction(us: seq<LocalCounts>, text: Bytes, answer: Bytes)
    requires IsPrediction(ModelOf(us), text, answer)
    ensures forall c :: Eligible(ModelOf(us), Tokenize(text), c) <==> SumTotals(us, c) > 0
    ensures Total(ClassTotals(us)) > 0 ==> SumTotals(us, answer) > 0
    ensures Total(ClassTotals(us)) == 0 ==> answer == ""
  {
    var model, tokens := ModelOf(us), Tokenize(text);
    forall c
      ensures Eligible(model, tokens, c) <==> SumTotals(us, c) > 0
    {
      EligibleClasses(us, tokens, c);
    }
    if Total(ClassTotals(us)) > 0 {
      var c := SomeClassHasTokens(us);
      assert Eligible(model, tokens, c);
    }
  }

  lemma EligibleClasses(us: seq<LocalCounts>, tokens: seq<Bytes>, c: Bytes)
    ensures Eligible(ModelOf(us), tokens, c) <==> SumTotals(us, c) > 0
  {
    var model := ModelOf(us);
    TotalNonNegative(ClassTotals(us));
    if c !in Classes(us) {
      NoTotals(us, c);
    } else {
      assert ClassTotals(us)[c] == SumTotals(us, c);
    }
    if Total(ClassTotals(us)) > 0 {
      PriorsAreDistribution(us);
    }
    if c in model.classPriors && model.classPriors[c] > 0.0 {
      AggregatedProbsPositive(us);
      ScorePositive(model, c, model.classPriors[c], tokens);
    }
  }

  lemma NoTotals(us: seq<LocalCounts>, c: Bytes)
    requires c !in Classes(us)
    ensures SumTotals(us, c) == 0
  {
    if SumTotals(us, c) > 0 {
      var u := SumByPositive(us, TotalIn(c));
    }
  }

  lemma SomeClassHasTokens(us: seq<LocalCounts>) returns (c: Bytes)
    requires Total(ClassTotals(us)) > 0
    ensures SumTotals(us, c) > 0
  {
    if forall d :: d in ClassTotals(us) ==> ClassTotals(us)[d] == 0 {
      assert SameLookups(ClassTotals(us), map[]);
      TotalByLookup(ClassTotals(us), map[]);
    }
    c :| c in ClassTotals(us) && ClassTotals(us)[c] != 0;
  }

  // ----- Evaluation -----

  /** Answers are compared with the label "spam": of the records, so many are (or are not) spam and
      were (or were not) called spam. */
  function Tally(test: seq<Record>, answers: seq<Bytes>, spam: bool, called: bool): nat
    requires |test| == |answers|
  {
    if test == [] then 0
    else
      var n := |test| - 1;
      Tally(test[..n], answers[..n], spam, called)
      + if (test[n].lbl == LABEL_SPAM) == spam && (answers[n] == LABEL_SPAM) == called then 1 else 0
  }

  datatype Confusion = Confusion(tp: nat, fp: nat, tn: nat, fn: nat)

  function ConfusionOf(test: seq<Record>, answers: seq<Bytes>): Confusion
    requires |test| == |answers|
  {
    Confusion(Tally(test, answers, true, true), Tally(test, answers, false, true),
              Tally(test, answers, false, false), Tally(test, answers, true, false))
  }

  datatype Metrics = Metrics(accuracy: real, precision: real, recall: real, f1: real)

  /** A quotient that is zero when there is nothing to divide by. */
  function Rate(part: nat, whole: nat): real {
    if whole > 0 then part as real / whole as real else 0.0
  }

  function HarmonicMean(p: real, r: real): real {
    if p + r > 0.0 then 2.0 * p * r / (p + r) else 0.0
  }

  function MetricsOf(c: Confusion): Metrics {
    var precision := Rate(c.tp, c.tp + c.fp);
    var recall := Rate(c.tp, c.tp + c.fn);
    Metrics(Rate(c.tp + c.tn, c.tp + c.fp + c.tn + c.fn), precision, recall, HarmonicMean(precision, recall))
  }

  ghost predicate ArePredictions(model: GlobalModel, test: seq<Record>, answers: seq<Bytes>) {
    && |answers| == |test|
    && forall i :: 0 <= i < |test| ==> IsPrediction(model, test[i].text, answers[i])
  }

  /** The metrics Evaluate may return: those of some admissible answers to the test texts. */
  ghost predicate IsEvaluation(model: GlobalModel, test: seq<Record>, metrics: Metrics) {
    exists answers :: ArePredictions(model, test, answers) && metrics == MetricsOf(ConfusionOf(test, answers))
  }

  method Evaluate(model: GlobalModel, test: seq<Record>) returns (m: Metrics)
    ensures IsEvaluation(model, test, m)
  {
    var tp, fp, tn, fn := 0, 0, 0, 0;
    ghost var answers: seq<Bytes> := [];
    for i := 0 to |test|
      invariant ArePredictions(model, test[..i], answers)
      invariant Confusion(tp, fp, tn, fn) == ConfusionOf(test[..i], answers)
    {
      var r := test[i];
      var answer := Predict(model, r.text);
      var predSpam := answer == LABEL_SPAM;
      var actualSpam := r.lbl == LABEL_SPAM;
      if actualSpam && predSpam {
        tp := tp + 1;
      } else if !actualSpam && predSpam {
        fp := fp + 1;
      } else if !actualSpam && !predSpam {
        tn := tn + 1;
      } else {
        fn := fn + 1;
      }
      assert test[..i + 1] == test[..i] + [r];
      AnswersNext(model, test[..i], answers, r, answer);
      answers := answers + [answer];
    }
    assert test[..|test|] == test;
    m := Metrics(0.0, 0.0, 0.0, 0.0);
    var total := tp + fp + tn + fn;
    if total > 0 {
      m := m.(accuracy := (tp + tn) as real / total as real);
    }
    if tp + fp > 0 {
      m := m.(precision := tp as real / (tp + fp) as real);
    }
    if tp + fn > 0 {
      m := m.(recall := tp as real / (tp + fn) as real);
    }
    m := m.(f1 := HarmonicMean(m.precision, m.recall));
    assert m == MetricsOf(ConfusionOf(test, answers));
  }

  lemma AnswersNext(model: GlobalModel, test: seq<Record>, answers: seq<Bytes>, r: Record, answer: Bytes)
    requires ArePredictions(model, test, answers) && IsPrediction(model, r.text, answer)
    ensures ArePredictions(model, test + [r], answers + [answer])
    ensures forall spam, called :: Tally(test + [r], answers + [answer], spam, called)
              == Tally(test, answers, spam, called)
                 + if (r.lbl == LABEL_SPAM) == spam && (answer == LABEL_SPAM) == called then 1 else 0
  {
    assert (test + [r])[..|test|] == test;
    assert (answers + [answer])[..|test|] == answers;
  }

  /** Every text has an admissible answer and every test set an evaluation. */
  lemma {:induction false} BestExists(model: GlobalModel, tokens: seq<Bytes>, classes: set<Bytes>) returns (best: Bytes)
    requires exists c :: c in classes && Eligible(model, tokens, c)
    ensures best in classes && Eligible(model, tokens, best)
    ensures forall d :: d in classes && Eligible(model, tokens, d) ==> ScoreIn(model, tokens, d) <= ScoreIn(model, tokens, best)
    decreases classes
  {
    best :| best in classes && Eligible(model, tokens, best);
    var rest := classes - {best};
    if exists c :: c in rest && Eligible(model, tokens, c) {
      var other := BestExists(model, tokens, rest);
      if ScoreIn(model, tokens, other) > ScoreIn(model, tokens, best) {
        best := other;
      }
    }
  }

  lemma PredictionExists(model: GlobalModel, text: Bytes) returns (answer: Bytes)
    ensures IsPrediction(model, text, answer)
  {
    var tokens := Tokenize(text);
    if c :| Eligible(model, tokens, c) {
      assert c in model.classPriors.Keys;
      answer := BestExists(model, tokens, model.classPriors.Keys);
    } else {
      answer := "";
    }
  }

  lemma {:induction false} AnswersExist(model: GlobalModel, test: seq<Record>) returns (answers: seq<Bytes>)
    ensures ArePredictions(model, test, answers)
    decreases |test|
  {
    if test == [] {
      answers := [];
    } else {
      var n := |test| - 1;
      var before := AnswersExist(model, test[..n]);
      var answer := PredictionExists(model, test[n].text);
      answers := before + [answer];
      AnswersNext(model, test[..n], before, test[n], answer);
      assert test == test[..n] + [test[n]];
    }
  }

  lemma EvaluationExists(model: GlobalModel, test: seq<Record>) returns (metrics: Metrics)
    ensures IsEvaluation(model, test, metrics)
  {
    var answers := AnswersExist(model, test);
    metrics := MetricsOf(ConfusionOf(test, answers));
  }

  /** The best classes of a test text are all spam or all not; ties among other classes do not matter. */
  ghost predicate SpamDecided(model: GlobalModel, test: seq<Record>) {
    forall r, c, d :: (r in test && IsBest(model, Tokenize(r.text), c) && IsBest(model, Tokenize(r.text), d)) ==>
      (c == LABEL_SPAM <==> d == LABEL_SPAM)
  }

  /** The counts depend on which answers are "spam" only. */
  lemma {:induction false} TallyOfSpam(test: seq<Record>, x: seq<Bytes>, y: seq<Bytes>, spam: bool, called: bool)
    requires |test| == |x| == |y|
    requires forall i :: 0 <= i < |test| ==> (x[i] == LABEL_SPAM <==> y[i] == LABEL_SPAM)
    ensures Tally(test, x, spam, called) == Tally(test, y, spam, called)
  {
    if test != [] {
      var n := |test| - 1;
      assert forall i :: 0 <= i < n ==> x[..n][i] == x[i] && y[..n][i] == y[i];
      TallyOfSpam(test[..n], x[..n], y[..n], spam, called);
    }
  }

  /** When it is decided for every test text whether it is spam, the metrics are a function of the
      model. */
  lemma EvaluationIsOrderFree(model: GlobalModel, test: seq<Record>, a: Metrics, b: Metrics)
    requires IsEvaluation(model, test, a) && IsEvaluation(model, test, b)
    requires SpamDecided(model, test)
    ensures a == b
  {
    var x :| ArePredictions(model, test, x) && a == MetricsOf(ConfusionOf(test, x));
    var y :| ArePredictions(model, test, y) && b == MetricsOf(ConfusionOf(test, y));
    forall i | 0 <= i < |test|
      ensures x[i] == LABEL_SPAM <==> y[i] == LABEL_SPAM
    {
      assert test[i] in test;
      SpamAgrees(model, test[i].text, x[i], y[i]);
    }
    TallyOfSpam(test, x, y, true, true);
    TallyOfSpam(test, x, y, false, true);
    TallyOfSpam(test, x, y, false, false);
    TallyOfSpam(test, x, y, true, false);
  }

  lemma SpamAgrees(model: GlobalModel, text: Bytes, a: Bytes, b: Bytes)
    requires IsPrediction(model, text, a) && IsPrediction(model, text, b)
    requires forall c, d :: IsBest(model, Tokenize(text), c) && IsBest(model, Tokenize(text), d) ==>
               (c == LABEL_SPAM <==> d == LABEL_SPAM)
    ensures a == LABEL_SPAM <==> b == LABEL_SPAM
  {
  }

  // ----- The metrics -----

  function SpamCount(test: seq<Record>): nat {
    if test == [] then 0
    else SpamCount(test[..|test| - 1]) + if test[|test| - 1].lbl == LABEL_SPAM then 1 else 0
  }

  function CalledCount(answers: seq<Bytes>): nat {
    if answers == [] then 0
    else CalledCount(answers[..|answers| - 1]) + if answers[|answers| - 1] == LABEL_SPAM then 1 else 0
  }

  /** The four counts partition the test set by label and by answer, and there are no errors exactly
      when every record was called what it is. */
  lemma {:induction false} ConfusionCounts(test: seq<Record>, answers: seq<Bytes>)
    requires |test| == |answers|
    ensures var c := ConfusionOf(test, answers);
            && c.tp + c.fp + c.tn + c.fn == |test|
            && c.tp + c.fn == SpamCount(test)
            && c.tp + c.fp == CalledCount(answers)
            && (c.fp + c.fn == 0 <==>
                forall i :: 0 <= i < |test| ==> (test[i].lbl == LABEL_SPAM <==> answers[i] == LABEL_SPAM))
  {
    if test != [] {
      var n := |test| - 1;
      ConfusionCounts(test[..n], answers[..n]);
      assert forall i :: 0 <= i < n ==> test[..n][i] == test[i] && answers[..n][i] == answers[i];
    }
  }

  lemma RateBounds(part: nat, whole: nat)
    requires part <= whole
    ensures 0.0 <= Rate(part, whole) <= 1.0
    ensures part > 0 ==> Rate(part, whole) > 0.0
    ensures whole > 0 ==> Rate(part, whole) * whole as real == part as real
    ensures whole > 0 ==> (Rate(part, whole) == 1.0 <==> part == whole)
  {
    if whole > 0 {
      Fraction(part as real, whole as real);
    }
  }

  /** The harmonic mean lies between its arguments. */
  lemma HarmonicBounds(p: real, r: real)
    requires 0.0 <= p <= r
    ensures p <= HarmonicMean(p, r) <= r
  {
    if p + r > 0.0 {
      var h := HarmonicMean(p, r);
      HarmonicTimes(p, r);
      Sandwich(p, r, h);
    }
  }

  lemma HarmonicTimes(p: real, r: real)
    requires p + r > 0.0
    ensures HarmonicMean(p, r) * (p + r) == 2.0 * p * r
  {
  }

  lemma SameSign(x: real, s: real)
    requires s > 0.0 && x * s >= 0.0
    ensures x >= 0.0
  {
  }

  lemma Sandwich(p: real, r: real, h: real)
    requires 0.0 <= p <= r && p + r > 0.0
    requires h * (p + r) == 2.0 * p * r
    ensures p <= h <= r
  {
    var s := p + r;
    assert (h - p) * s == p * (r - p);
    assert (r - h) * s == r * (r - p);
    assert p * (r - p) >= 0.0 && r * (r - p) >= 0.0;
    SameSign(h - p, s);
    SameSign(r - h, s);
  }

  /** All metrics are in [0, 1], F1 lies between precision and recall, and accuracy is 1 exactly on a
      non-empty test set without errors. */
  lemma MetricsBounds(c: Confusion)
    ensures var m := MetricsOf(c);
            && 0.0 <= m.accuracy <= 1.0
            && 0.0 <= m.precision <= 1.0
            && 0.0 <= m.recall <= 1.0
            && (m.precision <= m.f1 <= m.recall || m.recall <= m.f1 <= m.precision)
            && (m.accuracy == 1.0 <==> c.fp + c.fn == 0 && c.tp + c.tn > 0)
  {
    RateBounds(c.tp + c.tn, c.tp + c.fp + c.tn + c.fn);
    RateBounds(c.tp, c.tp + c.fp);
    RateBounds(c.tp, c.tp + c.fn);
    var m := MetricsOf(c);
    if m.precision <= m.recall {
      HarmonicBounds(m.precision, m.recall);
    } else {
      HarmonicBounds(m.recall, m.precision);
      assert HarmonicMean(m.recall, m.precision) == HarmonicMean(m.precision, m.recall);
    }
  }

  /** F1 = 2tp / (2tp + fp + fn). */
  lemma F1Closed(c: Confusion)
    requires 2 * c.tp + c.fp + c.fn > 0
    ensures MetricsOf(c).f1 == (2 * c.tp) as real / (2 * c.tp + c.fp + c.fn) as real
  {
    if c.tp > 0 {
      var t, a, b := c.tp as real, (c.tp + c.fp) as real, (c.tp + c.fn) as real;
      Harmonic(t, a, b);
    }
  }

  lemma Harmonic(t: real, a: real, b: real)
    requires t > 0.0 && a > 0.0 && b > 0.0
    ensures HarmonicMean(t / a, t / b) == 2.0 * t / (a + b)
  {
    var p, r := t / a, t / b;
    assert p * a == t && r * b == t;
    assert p > 0.0 && r > 0.0;
    var q := 2.0 * t / (a + b);
    assert q * (a + b) == 2.0 * t;
    HarmonicTimes(p, r);
    var h := HarmonicMean(p, r);
    calc {
      q * (p + r) * (a + b);
      q * (a + b) * (p + r);
      2.0 * t * (p + r);
      2.0 * (r * b * p + p * a * r);
      2.0 * p * r * (a + b);
    }
    assert (q * (p + r) - 2.0 * p * r) * (a + b) == 0.0;
    assert (q - h) * (p + r) == 0.0;
  }
}
