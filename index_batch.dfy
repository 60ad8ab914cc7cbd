/** The batch indexer of cmd/index-buildpack/main.go: one fetch per entry, each
    wrapped in an `IndexRecord` and sent on a channel, and a single loop that
    drains one record per entry, hands every error-free record to the index
    sink and reports one outcome per record.

    The channel is modelled by the order in which records arrive: `received`,
    any permutation of the records the fan-out produced. */
module IndexBatch {
  import opened Wrappers
  import opened BuildpackConfig
  import opened Permutations

  /** The message one fetch sends: its entry and the fetch's result. */
  datatype IndexRecord = IndexRecord(entry: Entry, metadata: Metadata, err: Option<Error>)

  /** `UpdateOrInsertConfig(e, m)`, injected: nil or an error. */
  type Sink = (Entry, Metadata) -> Option<Error>

  /** The sink as the repository has it: a stub that always succeeds. */
  function UpdateOrInsertConfig(e: Entry, m: Metadata): (r: Option<Error>)
    ensures r.None?
  {
    None
  }

  /** The record one fetch sends: the entry unchanged, with the fetch's
      metadata and error. */
  function HandleMetadata(e: Entry, parse: ReferenceParser, imageFn: ImageFunction,
                          decode: MetadataDecoder): (rec: IndexRecord)
    ensures rec.entry == e
    ensures Fetched(rec.metadata, rec.err) == FetchBuildpackConfig(e, parse, imageFn, decode)
    ensures rec.err.None? ==> Matches(e, rec.metadata)
  {
    var fetched := FetchBuildpackConfig(e, parse, imageFn, decode);
    IndexRecord(e, fetched.metadata, fetched.err)
  }

  /** The records the fan-out sends, in entry order: one per entry. */
  function FanOut(entries: seq<Entry>, parse: ReferenceParser, imageFn: ImageFunction,
                  decode: MetadataDecoder): (records: seq<IndexRecord>)
    ensures |records| == |entries|
    ensures forall i :: 0 <= i < |entries| ==>
      records[i] == HandleMetadata(entries[i], parse, imageFn, decode) && records[i].entry == entries[i]
  {
    if entries == [] then []
    else [HandleMetadata(entries[0], parse, imageFn, decode)] + FanOut(entries[1..], parse, imageFn, decode)
  }

  /** The outcome of one drained record: an errored record is a fetch failure
      carrying its error and never reaches the sink; an error-free record is
      updated or not as the sink answers. */
  function Classify(rec: IndexRecord, sink: Sink): (o: Outcome)
    ensures o.entry == rec.entry
    ensures o.FetchFailed? <==> rec.err.Some?
    ensures o.FetchFailed? ==> o.reason == rec.err.value
    ensures o.UpdateFailed? <==> rec.err.None? && sink(rec.entry, rec.metadata).Some?
    ensures o.UpdateFailed? ==> o.reason == sink(rec.entry, rec.metadata).value
  {
    if rec.err.Some? then FetchFailed(rec.entry, rec.err.value)
    else
      match sink(rec.entry, rec.metadata)
      case Some(err) => UpdateFailed(rec.entry, err)
      case None => Updated(rec.entry)
  }

  /** The outcome of each record, in the order given. */
  function Outcomes(records: seq<IndexRecord>, sink: Sink): seq<Outcome> {
    Map((rec: IndexRecord) => Classify(rec, sink), records)
  }

  /** The number of error-free records. */
  function ErrorFreeCount(records: seq<IndexRecord>): nat {
    if records == [] then 0
    else (if records[0].err.None? then 1 else 0) + ErrorFreeCount(records[1..])
  }

  /** The sink calls made for `records`, in order: one `(entry, metadata)` per
      error-free record and none for an errored one. */
  function SinkCalls(records: seq<IndexRecord>): (calls: seq<(Entry, Metadata)>)
    ensures |calls| == ErrorFreeCount(records)
  {
    if records == [] then []
    else
      var rest := SinkCalls(records[1..]);
      if records[0].err.None? then [(records[0].entry, records[0].metadata)] + rest else rest
  }

  /** Each sink call is made as often as its error-free record occurs. */
  lemma {:induction false} SinkCallsCountRecords(records: seq<IndexRecord>, c: (Entry, Metadata))
    ensures multiset(SinkCalls(records))[c] == multiset(records)[IndexRecord(c.0, c.1, None)]
  {
    if records != [] {
      SinkCallsCountRecords(records[1..], c);
      assert records == [records[0]] + records[1..];
    }
  }

  lemma {:induction false} SinkCallsConcat(a: seq<IndexRecord>, b: seq<IndexRecord>)
    ensures SinkCalls(a + b) == SinkCalls(a) + SinkCalls(b)
  {
    if a != [] {
      var head := if a[0].err.None? then [(a[0].entry, a[0].metadata)] else [];
      assert (a + b)[0] == a[0];
      assert (a + b)[1..] == a[1..] + b;
      SinkCallsConcat(a[1..], b);
      assert SinkCalls(a + b) == head + SinkCalls(a[1..] + b);
      assert SinkCalls(a) == head + SinkCalls(a[1..]);
    } else {
      assert a + b == b;
    }
  }

  /** The drain loop. It receives exactly one record per entry, in arrival
      order, calls the sink only for error-free records, and reports one
      outcome per record. Whatever the arrival order, every entry's own
      outcome is reported, the sink receives exactly the error-free records,
      and only metadata that matches its entry reaches the sink. */
  method BuildIndex(entries: seq<Entry>, parse: ReferenceParser, imageFn: ImageFunction,
                    decode: MetadataDecoder, sink: Sink, received: seq<IndexRecord>)
    returns (outcomes: seq<Outcome>, sinkCalls: seq<(Entry, Metadata)>)
    requires multiset(received) == multiset(FanOut(entries, parse, imageFn, decode))
    ensures |outcomes| == |received| == |entries|
    ensures forall k :: 0 <= k < |received| ==> outcomes[k] == Classify(received[k], sink)
    ensures sinkCalls == SinkCalls(received)
    ensures multiset(outcomes) == multiset(Outcomes(FanOut(entries, parse, imageFn, decode), sink))
    ensures forall i :: 0 <= i < |entries| ==>
      Classify(HandleMetadata(entries[i], parse, imageFn, decode), sink) in outcomes
    ensures multiset(sinkCalls) == multiset(SinkCalls(FanOut(entries, parse, imageFn, decode)))
    ensures |sinkCalls| == ErrorFreeCount(FanOut(entries, parse, imageFn, decode))
    ensures forall c :: c in sinkCalls ==> c.0 in entries && Matches(c.0, c.1)
  {
    PermutationLength(received, FanOut(entries, parse, imageFn, decode));
    outcomes, sinkCalls := [], [];
    for k := 0 to |received|
      invariant outcomes == Outcomes(received[..k], sink)
      invariant sinkCalls == SinkCalls(received[..k])
    {
      var rec := received[k];
      assert received[..k + 1] == received[..k] + [rec];
      DrainOneMore(received[..k], rec, sink);
      if rec.err.Some? {
        outcomes := outcomes + [FetchFailed(rec.entry, rec.err.value)];
      } else {
        var err := sink(rec.entry, rec.metadata);
        sinkCalls := sinkCalls + [(rec.entry, rec.metadata)];
        if err.Some? {
          outcomes := outcomes + [UpdateFailed(rec.entry, err.value)];
        } else {
          outcomes := outcomes + [Updated(rec.entry)];
        }
      }
    }
    assert received[..|received|] == received;
    OutcomesInOrder(received, sink);
    OutcomesAreOrderIndependent(entries, parse, imageFn, decode, sink, received);
    SinkCallsRespectPermutation(received, FanOut(entries, parse, imageFn, decode));
    SinkCallsAreValidatedFetches(entries, parse, imageFn, decode, received);
  }

  /** Draining one more record appends its outcome, and its sink call when it
      is error-free. */
  lemma DrainOneMore(drained: seq<IndexRecord>, rec: IndexRecord, sink: Sink)
    ensures Outcomes(drained + [rec], sink) == Outcomes(drained, sink) + [Classify(rec, sink)]
    ensures SinkCalls(drained + [rec])
         == SinkCalls(drained) + if rec.err.None? then [(rec.entry, rec.metadata)] else []
  {
    SinkCallsConcat(drained, [rec]);
    MapConcat((r: IndexRecord) => Classify(r, sink), drained, [rec]);
  }

  /** The k-th outcome is the outcome of the k-th record. */
  lemma OutcomesInOrder(records: seq<IndexRecord>, sink: Sink)
    ensures |Outcomes(records, sink)| == |records|
    ensures forall k :: 0 <= k < |records| ==> Outcomes(records, sink)[k] == Classify(records[k], sink)
  {
    forall k | 0 <= k < |records| ensures Outcomes(records, sink)[k] == Classify(records[k], sink) {
      MapAt((r: IndexRecord) => Classify(r, sink), records, k);
    }
  }

  /** Whatever order the records arrive in, the drained outcomes are those of
      the entries in batch order, so every entry's own outcome is reported. */
  lemma OutcomesAreOrderIndependent(entries: seq<Entry>, parse: ReferenceParser, imageFn: ImageFunction,
                                    decode: MetadataDecoder, sink: Sink, received: seq<IndexRecord>)
    requires multiset(received) == multiset(FanOut(entries, parse, imageFn, decode))
    ensures multiset(Outcomes(received, sink)) == multiset(Outcomes(FanOut(entries, parse, imageFn, decode), sink))
    ensures forall i :: 0 <= i < |entries| ==>
      Classify(HandleMetadata(entries[i], parse, imageFn, decode), sink) in Outcomes(received, sink)
  {
    var sent := FanOut(entries, parse, imageFn, decode);
    OutcomesRespectPermutation(received, sent, sink);
  }

  /** Arrival order does not change the multiset of outcomes, and the outcome
      of every record of `b` is among the outcomes of its permutation `a`. */
  lemma OutcomesRespectPermutation(a: seq<IndexRecord>, b: seq<IndexRecord>, sink: Sink)
    requires multiset(a) == multiset(b)
    ensures multiset(Outcomes(a, sink)) == multiset(Outcomes(b, sink))
    ensures forall i :: 0 <= i < |b| ==> Classify(b[i], sink) in Outcomes(a, sink)
  {
    var classify := (rec: IndexRecord) => Classify(rec, sink);
    MapRespectsPermutation(classify, a, b);
    forall i | 0 <= i < |b| ensures Classify(b[i], sink) in Outcomes(a, sink) {
      MapKeepsEveryImage(classify, a, b, i);
    }
  }

  /** Whatever order the records arrive in, the sink is called once per
      error-free fetch, and only with metadata that matches its entry. */
  lemma SinkCallsAreValidatedFetches(entries: seq<Entry>, parse: ReferenceParser, imageFn: ImageFunction,
                                     decode: MetadataDecoder, received: seq<IndexRecord>)
    requires multiset(received) == multiset(FanOut(entries, parse, imageFn, decode))
    ensures |SinkCalls(received)| == ErrorFreeCount(FanOut(entries, parse, imageFn, decode))
    ensures forall c :: c in SinkCalls(received) ==> c.0 in entries && Matches(c.0, c.1)
  {
    var sent := FanOut(entries, parse, imageFn, decode);
    SinkCallsRespectPermutation(received, sent);
    PermutationLength(SinkCalls(received), SinkCalls(sent));
    forall c | c in SinkCalls(received) ensures c.0 in entries && Matches(c.0, c.1) {
      ErrorFreeRecordCameFromEntry(entries, parse, imageFn, decode, c);
      SinkCallsCountRecords(received, c);
      assert multiset(SinkCalls(received))[c] > 0;
    }
  }

  /** Arrival order does not change which calls reach the sink. */
  lemma SinkCallsRespectPermutation(a: seq<IndexRecord>, b: seq<IndexRecord>)
    requires multiset(a) == multiset(b)
    ensures multiset(SinkCalls(a)) == multiset(SinkCalls(b))
  {
    forall c ensures multiset(SinkCalls(a))[c] == multiset(SinkCalls(b))[c] {
      SinkCallsCountRecords(a, c);
      SinkCallsCountRecords(b, c);
    }
  }

  /** An error-free record of the fan-out belongs to one of the entries, and
      its metadata matches that entry. */
  lemma ErrorFreeRecordCameFromEntry(entries: seq<Entry>, parse: ReferenceParser, imageFn: ImageFunction,
                                     decode: MetadataDecoder, c: (Entry, Metadata))
    ensures multiset(FanOut(entries, parse, imageFn, decode))[IndexRecord(c.0, c.1, None)] > 0 ==>
      c.0 in entries && Matches(c.0, c.1)
  {
    var sent := FanOut(entries, parse, imageFn, decode);
    if multiset(sent)[IndexRecord(c.0, c.1, None)] > 0 {
      assert IndexRecord(c.0, c.1, None) in sent;
      var i :| 0 <= i < |sent| && sent[i] == IndexRecord(c.0, c.1, None);
      assert entries[i] == c.0;
    }
  }

  /** One entry's fetch never changes another entry's outcome: replacing entry
      `j` by any other entry leaves the outcome of every other entry as it was. */
  lemma EntriesAreIsolated(entries: seq<Entry>, j: nat, other: Entry, i: nat, parse: ReferenceParser,
                           imageFn: ImageFunction, decode: MetadataDecoder, sink: Sink)
    requires i < |entries| && j < |entries| && i != j
    ensures Outcomes(FanOut(entries[j := other], parse, imageFn, decode), sink)[i]
         == Outcomes(FanOut(entries, parse, imageFn, decode), sink)[i]
  {
    var classify := (rec: IndexRecord) => Classify(rec, sink);
    MapAt(classify, FanOut(entries[j := other], parse, imageFn, decode), i);
    MapAt(classify, FanOut(entries, parse, imageFn, decode), i);
  }

  /** With the stub sink, no update fails: every error-free record is
      reported as updated and every other one as a fetch failure. */
  lemma StubSinkNeverFailsUpdate(rec: IndexRecord)
    ensures Classify(rec, UpdateOrInsertConfig) == if rec.err.None? then Updated(rec.entry)
                                                  else FetchFailed(rec.entry, rec.err.value)
  {
  }
}
