/** The worker and the coordinator of a training round (internal/fl/worker.go,
    internal/fl/coordinator.go) and the messages they exchange with the aggregator. */
module Training {
  import opened Dataset
  import opened NaiveBayes
  import opened Prediction
  import opened Wire
  import Aggregator

  /** A message on its way; a train request names the worker it is addressed to by its index. */
  datatype Packet =
    | TrainRequest(worker: nat, round: int, path: Bytes)
    | ToAggregator(msg: Aggregator.Msg)
    | ToCoordinator(model: AggregatedModel)
  {
    function Round(): int {
      match this
      case TrainRequest(_, q, _) => q
      case ToAggregator(m) => m.Round()
      case ToCoordinator(m) => m.round
    }
  }

  datatype RoundResult = RoundResult(round: int, metrics: Metrics)

  // ----- Worker -----

  /** The reply to a train request: the counts of the named file, or nothing if it cannot be read. */
  function WorkerReply(files: map<Bytes, Bytes>, workerId: Bytes, round: int, path: Bytes): seq<Packet> {
    match LoadFrom(files, path)
    case Loaded(records) => [ToAggregator(Aggregator.Update(ToUpdate(round, workerId, CountsOf(records))))]
    case Failed(_) => []
  }

  method WorkerReceive(files: map<Bytes, Bytes>, workerId: Bytes, round: int, path: Bytes) returns (sent: seq<Packet>)
    ensures sent == WorkerReply(files, workerId, round, path)
  {
    var loaded := Load(files, path);
    if loaded.Failed? {
      return [];
    }
    var counts := CountLocal(loaded.records);
    var wordCounts := MakePBWordCounts(counts.wordCounts);
    var classTotals := CopyMap(counts.classTotals);
    sent := [ToAggregator(Aggregator.Update(LocalModelUpdate(round, workerId, wordCounts, classTotals)))];
  }

  // ----- Coordinator -----

  /** One request for every worker, in order. */
  function Requests(round: int, paths: seq<Bytes>): seq<Packet> {
    if paths == [] then []
    else
      var n := |paths| - 1;
      Requests(round, paths[..n]) + [TrainRequest(n, round, paths[n])]
  }

  /** Starting a round: nothing happens unless there is a path for every worker; otherwise a new
      round id is taken and the trigger goes out before the requests. */
  function StartRound(roundID: int, workers: nat, paths: seq<Bytes>): (int, seq<Packet>) {
    if |paths| != workers then (roundID, [])
    else
      (roundID + 1, [ToAggregator(Aggregator.Trigger(roundID + 1, workers))] + Requests(roundID + 1, paths))
  }

  lemma {:induction false} RequestAt(round: int, paths: seq<Bytes>, k: nat)
    ensures |Requests(round, paths)| == |paths|
    ensures k < |paths| ==> Requests(round, paths)[k] == TrainRequest(k, round, paths[k])
  {
    if paths != [] {
      RequestAt(round, paths[..|paths| - 1], k);
    }
  }

  /** A round with a path for every worker takes the next id; its first message is the trigger that
      announces as many updates as there are workers, and worker k is sent the k-th path. Any other number
      of paths starts nothing. */
  lemma StartSends(roundID: int, workers: nat, paths: seq<Bytes>, k: nat)
    ensures var (id, sent) := StartRound(roundID, workers, paths);
            if |paths| == workers then
              && id == roundID + 1 && |sent| == 1 + workers
              && sent[0] == ToAggregator(Aggregator.Trigger(id, workers))
              && (k < workers ==> sent[1 + k] == TrainRequest(k, id, paths[k]))
            else id == roundID && sent == []
  {
    RequestAt(roundID + 1, paths, k);
  }

  class CoordinatorActor {
    const workers: nat
    const testSet: seq<Record>
    var roundID: int
    var results: seq<RoundResult>

    constructor (workers: nat, testSet: seq<Record>)
      ensures this.workers == workers && this.testSet == testSet && roundID == 0 && results == []
    {
      this.workers := workers;
      this.testSet := testSet;
      roundID := 0;
      results := [];
    }

    method StartTraining(paths: seq<Bytes>) returns (sent: seq<Packet>)
      modifies this`roundID
      ensures (roundID, sent) == StartRound(old(roundID), workers, paths)
    {
      if |paths| != workers {
        return [];
      }
      roundID := roundID + 1;
      sent := [ToAggregator(Aggregator.Trigger(roundID, workers))];
      for i := 0 to workers
        invariant sent == [ToAggregator(Aggregator.Trigger(roundID, workers))] + Requests(roundID, paths[..i])
      {
        assert paths[..i + 1][..i] == paths[..i];
        sent := sent + [TrainRequest(i, roundID, paths[i])];
      }
      assert paths[..workers] == paths;
    }

    /** Evaluates an arriving model and reports the result. */
    method EvaluateModel(m: AggregatedModel)
      modifies this`results
      ensures |results| == |old(results)| + 1 && results[..|old(results)|] == old(results)
      ensures results[|old(results)|].round == m.round
      ensures exists model ::
                IsRebuilt(m, model) && IsEvaluation(model, testSet, results[|old(results)|].metrics)
    {
      var model := Rebuild(m);
      var metrics := Evaluate(model, testSet);
      results := results + [RoundResult(m.round, metrics)];
    }
  }
}
