/** Requests and responses shared by the queue and the router (inference/types.py). */
module InferenceTypes {
  import opened Options

  /** A metadata value as the queue and the router compare it. */
  datatype Value = Null | Number(n: int) | Text(s: string)

  /** The metadata keys that routing reads; `numPredict` is None when the key is absent. */
  datatype Metadata = Metadata(numPredict: Option<Value>, provider: string)

  datatype Request = Request(imagePath: string, prompt: string, priority: int, modelName: Option<string>,
                             metadata: Metadata)

  /** Python's `x or default` on an optional string. */
  function OrElse(x: Option<string>, default: string): string {
    if x.Some? && x.value != "" then x.value else default
  }

  // ----- The batch key of the queue and the homogeneity test of the router -----

  datatype BatchKey = BatchKey(prompt: string, model: string, numPredict: Value, provider: string)

  function BatchKeyFor(r: Request): BatchKey {
    BatchKey(r.prompt, OrElse(r.modelName, ""),
             if r.metadata.numPredict.Some? then r.metadata.numPredict.value else Text("__default__"),
             r.metadata.provider)
  }

  function RouterNumPredict(r: Request): Value {
    if r.metadata.numPredict.Some? then r.metadata.numPredict.value else Text("__npdef__")
  }

  /** What `infer_batch` compares between the first request and every other one. */
  predicate Homogeneous(primaryModel: string, reqs: seq<Request>) {
    forall i | 0 <= i < |reqs| ::
      && OrElse(reqs[i].modelName, primaryModel) == OrElse(reqs[0].modelName, primaryModel)
      && reqs[i].prompt == reqs[0].prompt
      && RouterNumPredict(reqs[i]) == RouterNumPredict(reqs[0])
  }

  predicate SharesKey(reqs: seq<Request>) {
    forall i | 0 <= i < |reqs| :: BatchKeyFor(reqs[i]) == BatchKeyFor(reqs[0])
  }

  /** Some request omits num_predict while another spells out the queue's placeholder for "omitted". */
  ghost predicate PlaceholderClash(reqs: seq<Request>) {
    && (exists i :: 0 <= i < |reqs| && reqs[i].metadata.numPredict.None?)
    && (exists i :: 0 <= i < |reqs| && reqs[i].metadata.numPredict == Some(Text("__default__")))
  }

  /** A batch the queue builds passes the router's checks, except when the placeholder is used as a value. */
  lemma QueueBatchIsHomogeneous(primaryModel: string, reqs: seq<Request>)
    requires SharesKey(reqs)
    ensures Homogeneous(primaryModel, reqs) <==> !PlaceholderClash(reqs)
  {
    if PlaceholderClash(reqs) {
      var i :| 0 <= i < |reqs| && reqs[i].metadata.numPredict.None?;
      var j :| 0 <= j < |reqs| && reqs[j].metadata.numPredict == Some(Text("__default__"));
      assert "__default__"[2] != "__npdef__"[2];
      assert RouterNumPredict(reqs[i]) != RouterNumPredict(reqs[j]);
    } else {
      forall i | 0 <= i < |reqs|
        ensures OrElse(reqs[i].modelName, primaryModel) == OrElse(reqs[0].modelName, primaryModel)
        ensures reqs[i].prompt == reqs[0].prompt && RouterNumPredict(reqs[i]) == RouterNumPredict(reqs[0])
      {
        assert BatchKeyFor(reqs[i]) == BatchKeyFor(reqs[0]);
      }
    }
  }

  /** Two requests with one batch key that the router refuses to batch. */
  lemma PlaceholderClashExample()
    ensures var silent := Request("a.jpg", "rate", 0, None, Metadata(None, ""));
            var spelled := silent.(metadata := Metadata(Some(Text("__default__")), ""));
            SharesKey([silent, spelled]) && !Homogeneous("m", [silent, spelled])
  {
    var silent := Request("a.jpg", "rate", 0, None, Metadata(None, ""));
    var spelled := silent.(metadata := Metadata(Some(Text("__default__")), ""));
    var reqs := [silent, spelled];
    assert BatchKeyFor(reqs[0]) == BatchKeyFor(reqs[1]);
    assert reqs[0].metadata.numPredict.None? && reqs[1].metadata.numPredict == Some(Text("__default__"));
    QueueBatchIsHomogeneous("m", reqs);
  }
}
