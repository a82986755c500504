/** The protobuf shapes of the training messages. A proto3 map value cannot itself be a map, so the
    nested tables are wrapped for the wire and unwrapped on arrival (internal/fl/convert.go), and
    VocabSize is not sent but rebuilt by the receiver (internal/fl/coordinator.go, lines 60-68). */
module Wire {
  import opened Dataset
  import opened MapSums
  import opened NaiveBayes
  import opened NaiveBayesLaws

  datatype PBWordCounts = WordCounts(counts: map<Bytes, nat>)
  datatype PBWordProbs = WordProbs(probs: map<Bytes, real>)

  datatype LocalModelUpdate = LocalModelUpdate(
    round: int, workerId: Bytes, wordCounts: map<Bytes, PBWordCounts>, classTotals: map<Bytes, nat>)
  datatype AggregatedModel = AggregatedModel(
    round: int, globalWordProbs: map<Bytes, PBWordProbs>, classPriors: map<Bytes, real>)

  function ToPBWordCounts(m: Histograms): map<Bytes, PBWordCounts> {
    map c | c in m :: WordCounts(m[c])
  }

  function FromPBWordCounts(m: map<Bytes, PBWordCounts>): Histograms {
    map c | c in m :: m[c].counts
  }

  function ToPBWordProbs(m: map<Bytes, map<Bytes, real>>): map<Bytes, PBWordProbs> {
    map c | c in m :: WordProbs(m[c])
  }

  function FromPBWordProbs(m: map<Bytes, PBWordProbs>): map<Bytes, map<Bytes, real>> {
    map c | c in m :: m[c].probs
  }

  lemma WordCountsRoundTrip(m: Histograms)
    ensures FromPBWordCounts(ToPBWordCounts(m)) == m
  {
    SameEntries(FromPBWordCounts(ToPBWordCounts(m)), m);
  }

  lemma WordProbsRoundTrip(m: map<Bytes, map<Bytes, real>>)
    ensures FromPBWordProbs(ToPBWordProbs(m)) == m
  {
    SameEntries(FromPBWordProbs(ToPBWordProbs(m)), m);
  }

  /** The loop shared by toPBInt64Map and fromPBInt64Map; int and int64 coincide. */
  method CopyMap<V>(m: map<Bytes, V>) returns (out: map<Bytes, V>)
    ensures out == m
  {
    out := map[];
    var todo := m.Keys;
    while todo != {}
      invariant todo <= m.Keys
      invariant forall k :: k in out <==> k in m && k !in todo
      invariant forall k :: k in out ==> out[k] == m[k]
      decreases todo
    {
      var k :| k in todo;
      out := out[k := m[k]];
      todo := todo - {k};
    }
  }

  method MakePBWordCounts(m: Histograms) returns (out: map<Bytes, PBWordCounts>)
    ensures out == ToPBWordCounts(m)
  {
    out := map[];
    var todo := m.Keys;
    while todo != {}
      invariant todo <= m.Keys
      invariant forall c :: c in out <==> c in m && c !in todo
      invariant forall c :: c in out ==> out[c] == WordCounts(m[c])
      decreases todo
    {
      var lbl :| lbl in todo;
      var words := CopyMap(m[lbl]);
      out := out[lbl := WordCounts(words)];
      todo := todo - {lbl};
    }
    SameEntries(out, ToPBWordCounts(m));
  }

  method ReadPBWordCounts(m: map<Bytes, PBWordCounts>) returns (out: Histograms)
    ensures out == FromPBWordCounts(m)
  {
    out := map[];
    var todo := m.Keys;
    while todo != {}
      invariant todo <= m.Keys
      invariant forall c :: c in out <==> c in m && c !in todo
      invariant forall c :: c in out ==> out[c] == m[c].counts
      decreases todo
    {
      var lbl :| lbl in todo;
      var words := CopyMap(m[lbl].counts);
      out := out[lbl := words];
      todo := todo - {lbl};
    }
    SameEntries(out, FromPBWordCounts(m));
  }

  method MakePBWordProbs(m: map<Bytes, map<Bytes, real>>) returns (out: map<Bytes, PBWordProbs>)
    ensures out == ToPBWordProbs(m)
  {
    out := map[];
    var todo := m.Keys;
    while todo != {}
      invariant todo <= m.Keys
      invariant forall c :: c in out <==> c in m && c !in todo
      invariant forall c :: c in out ==> out[c] == WordProbs(m[c])
      decreases todo
    {
      var lbl :| lbl in todo;
      out := out[lbl := WordProbs(m[lbl])];
      todo := todo - {lbl};
    }
    SameEntries(out, ToPBWordProbs(m));
  }

  method ReadPBWordProbs(m: map<Bytes, PBWordProbs>) returns (out: map<Bytes, map<Bytes, real>>)
    ensures out == FromPBWordProbs(m)
  {
    out := map[];
    var todo := m.Keys;
    while todo != {}
      invariant todo <= m.Keys
      invariant forall c :: c in out <==> c in m && c !in todo
      invariant forall c :: c in out ==> out[c] == m[c].probs
      decreases todo
    {
      var lbl :| lbl in todo;
      out := out[lbl := m[lbl].probs];
      todo := todo - {lbl};
    }
    SameEntries(out, FromPBWordProbs(m));
  }

  /** The update a worker sends for its counts, and the counts the aggregator reads from it. */
  function ToUpdate(round: int, workerId: Bytes, counts: LocalCounts): LocalModelUpdate {
    LocalModelUpdate(round, workerId, ToPBWordCounts(counts.wordCounts), counts.classTotals)
  }

  function FromUpdate(m: LocalModelUpdate): LocalCounts {
    LocalCounts(FromPBWordCounts(m.wordCounts), m.classTotals)
  }

  /** The counts survive the trip from the worker to the aggregator. */
  lemma UpdateRoundTrip(round: int, workerId: Bytes, counts: LocalCounts)
    ensures FromUpdate(ToUpdate(round, workerId, counts)) == counts
  {
    WordCountsRoundTrip(counts.wordCounts);
  }

  /** The message that carries a model; the vocabulary size is left out. */
  function ToMessage(round: int, model: GlobalModel): AggregatedModel {
    AggregatedModel(round, ToPBWordProbs(model.wordProbs), model.classPriors)
  }

  /** The models a receiver may rebuild: the size of any one class's table serves as the vocabulary
      size, and zero if there is no class. */
  ghost predicate IsRebuilt(m: AggregatedModel, model: GlobalModel) {
    && model.wordProbs == FromPBWordProbs(m.globalWordProbs)
    && model.classPriors == m.classPriors
    && if model.wordProbs == map[] then model.vocabSize == 0
       else exists c :: c in model.wordProbs && model.vocabSize == |model.wordProbs[c]|
  }

  method Rebuild(m: AggregatedModel) returns (model: GlobalModel)
    ensures IsRebuilt(m, model)
  {
    var wordProbs := ReadPBWordProbs(m.globalWordProbs);
    var vocabSize := 0;
    if wordProbs != map[] {
      var c :| c in wordProbs;
      vocabSize := |wordProbs[c]|;
    }
    model := GlobalModel(wordProbs, m.classPriors, vocabSize);
  }

  /** The tables arrive unchanged. */
  lemma TablesArrive(sent: GlobalModel, round: int, model: GlobalModel)
    requires IsRebuilt(ToMessage(round, sent), model)
    ensures model.wordProbs == sent.wordProbs && model.classPriors == sent.classPriors
    ensures model == sent <==> model.vocabSize == sent.vocabSize
  {
    WordProbsRoundTrip(sent.wordProbs);
  }

  /** Every class's table has the whole vocabulary. */
  lemma TableSize(us: seq<LocalCounts>, c: Bytes)
    ensures |NaiveBayes.WordProbs(us, c)| == |Vocab(us)|
  {
    assert NaiveBayes.WordProbs(us, c).Keys == Vocab(us);
  }

  lemma RebuiltSize(us: seq<LocalCounts>, model: GlobalModel)
    requires model.wordProbs == AllWordProbs(us)
    requires if model.wordProbs == map[] then model.vocabSize == 0
             else exists c :: c in model.wordProbs && model.vocabSize == |model.wordProbs[c]|
    ensures model.vocabSize == if Classes(us) == {} then 0 else |Vocab(us)|
  {
    assert AllWordProbs(us).Keys == Classes(us);
    if model.wordProbs != map[] {
      var c :| c in model.wordProbs && model.vocabSize == |model.wordProbs[c]|;
      TableSize(us, c);
    }
  }

  /** Whichever class the receiver looks at, it rebuilds the sender's model exactly when the sender
      has a class or no vocabulary. */
  lemma RebuiltExactlyWhen(us: seq<LocalCounts>, round: int, model: GlobalModel)
    requires IsRebuilt(ToMessage(round, ModelOf(us)), model)
    ensures model == ModelOf(us) <==> Classes(us) != {} || Vocab(us) == {}
  {
    TablesArrive(ModelOf(us), round, model);
    RebuiltSize(us, model);
  }

  /** Updates that come from CountLocal always qualify. */
  lemma RebuiltFromLocals(shards: seq<seq<Record>>, round: int, model: GlobalModel)
    requires IsRebuilt(ToMessage(round, ModelOf(Locals(shards))), model)
    ensures model == ModelOf(Locals(shards))
  {
    var us := Locals(shards);
    RebuiltExactlyWhen(us, round, model);
    if w :| w in Vocab(us) {
      LocalsNoZeros(shards);
      VocabBySums(us, w);
      var c :| SumCounts(us, c, w) > 0;
      ShardSums(shards, c, w);
      ClassesBySums(us, c);
    }
  }

  /** What the rule misses: words counted for a class without a class total are in the sender's
      vocabulary but not in the rebuilt model. */
  lemma RebuiltDiffers() returns (us: seq<LocalCounts>, model: GlobalModel)
    ensures us == [LocalCounts(map["ham" := map["hello" := 1]], map[])]
    ensures IsRebuilt(ToMessage(1, ModelOf(us)), model)
    ensures ModelOf(us).vocabSize > 0 && model.vocabSize == 0
  {
    us := [LocalCounts(map["ham" := map["hello" := 1]], map[])];
    assert "hello" in Vocab(us) by {
      assert us[0] in us;
      assert "ham" in us[0].wordCounts && "hello" in us[0].wordCounts["ham"];
    }
    assert Classes(us) == {};
    model := RebuildExists(ToMessage(1, ModelOf(us)));
    TablesArrive(ModelOf(us), 1, model);
    RebuiltSize(us, model);
  }

  lemma RebuildExists(m: AggregatedModel) returns (model: GlobalModel)
    ensures IsRebuilt(m, model)
  {
    var wordProbs := FromPBWordProbs(m.globalWordProbs);
    if wordProbs == map[] {
      model := GlobalModel(wordProbs, m.classPriors, 0);
    } else {
      var c :| c in wordProbs;
      model := GlobalModel(wordProbs, m.classPriors, |wordProbs[c]|);
    }
  }
}
