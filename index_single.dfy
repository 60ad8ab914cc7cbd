/** The single-entry indexer of index_buildpack.go: fetch one entry's metadata
    through the shared check chain, then hand it to the index sink, and report
    one of three outcomes. */
module IndexSingle {
  import opened Wrappers
  import opened BuildpackConfig
  import IndexBatch

  /** `UpdateOrInsertConfig(m)`, injected: nil or an error. */
  type Sink = Metadata -> Option<Error>

  /** The sink as the repository has it: a stub that always succeeds. Its
      console line is not modelled. */
  function UpdateOrInsertConfig(m: Metadata): (r: Option<Error>)
    ensures r.None?
  {
    None
  }

  /** One run: the reported outcome and the metadata handed to the sink. */
  datatype Run = Run(outcome: Outcome, sinkCalls: seq<Metadata>)

  /** The outcome decision of the single-entry flow: a fetch error is reported
      and the sink is not called; otherwise the sink is called once with the
      fetched metadata and its answer decides between an update failure and an
      update. */
  function IndexEntry(e: Entry, parse: ReferenceParser, imageFn: ImageFunction, decode: MetadataDecoder,
                      sink: Sink): (run: Run)
    ensures run.outcome.entry == e
    ensures run.outcome.FetchFailed? <==> FetchBuildpackConfig(e, parse, imageFn, decode).err.Some?
    ensures run.outcome.FetchFailed? ==> run.outcome.reason == FetchBuildpackConfig(e, parse, imageFn, decode).err.value
    ensures run.sinkCalls != [] ==> run.sinkCalls == [FetchBuildpackConfig(e, parse, imageFn, decode).metadata]
    ensures |run.sinkCalls| <= 1
    ensures run.outcome.FetchFailed? <==> run.sinkCalls == []
    ensures forall m :: m in run.sinkCalls ==> Matches(e, m)
    ensures run.outcome.UpdateFailed? ==> sink(run.sinkCalls[0]) == Some(run.outcome.reason)
    ensures run.outcome.Updated? ==> sink(run.sinkCalls[0]) == None
  {
    var fetched := FetchBuildpackConfig(e, parse, imageFn, decode);
    if fetched.err.Some? then Run(FetchFailed(e, fetched.err.value), [])
    else
      match sink(fetched.metadata)
      case Some(err) => Run(UpdateFailed(e, err), [fetched.metadata])
      case None => Run(Updated(e), [fetched.metadata])
  }

  /** A fetch error is reported with that error, and the sink is never called:
      the run is the same whatever the sink would answer. */
  lemma FetchFailureSkipsSink(e: Entry, parse: ReferenceParser, imageFn: ImageFunction, decode: MetadataDecoder,
                              sink: Sink, otherSink: Sink)
    requires FetchBuildpackConfig(e, parse, imageFn, decode).err.Some?
    ensures IndexEntry(e, parse, imageFn, decode, sink)
         == Run(FetchFailed(e, FetchBuildpackConfig(e, parse, imageFn, decode).err.value), [])
    ensures IndexEntry(e, parse, imageFn, decode, sink) == IndexEntry(e, parse, imageFn, decode, otherSink)
  {
  }

  /** After a successful fetch the sink is called once with the fetched
      metadata; a sink error is an update failure carrying that error, and
      otherwise the entry is updated. */
  lemma SinkDecidesOutcome(e: Entry, parse: ReferenceParser, imageFn: ImageFunction, decode: MetadataDecoder,
                           sink: Sink)
    requires FetchBuildpackConfig(e, parse, imageFn, decode).err.None?
    ensures var m := FetchBuildpackConfig(e, parse, imageFn, decode).metadata;
      IndexEntry(e, parse, imageFn, decode, sink)
        == Run(if sink(m).Some? then UpdateFailed(e, sink(m).value) else Updated(e), [m])
  {
  }

  /** With the stub sink every entry that passes the checks is updated, and
      no update ever fails. */
  lemma StubSinkIndexesEveryValidEntry(e: Entry, parse: ReferenceParser, imageFn: ImageFunction,
                                       decode: MetadataDecoder)
    ensures !IndexEntry(e, parse, imageFn, decode, UpdateOrInsertConfig).outcome.UpdateFailed?
    ensures IndexEntry(e, parse, imageFn, decode, UpdateOrInsertConfig).outcome.Updated?
        <==> LabelMetadata(e, parse, imageFn, decode).Some? && Matches(e, LabelMetadata(e, parse, imageFn, decode).value)
  {
    SuccessReturnsDecodedMetadata(e, parse, imageFn, decode);
  }

  /** A parse failure is reported with the parser's error before any later
      step: neither the image function, the decoder nor the sink is consulted. */
  lemma ParseFailureReportedFirst(e: Entry, parse: ReferenceParser, imageFn: ImageFunction, decode: MetadataDecoder,
                                  sink: Sink, otherImageFn: ImageFunction, otherDecode: MetadataDecoder,
                                  otherSink: Sink)
    requires parse(e.address).Failure?
    ensures IndexEntry(e, parse, imageFn, decode, sink) == Run(FetchFailed(e, parse(e.address).error), [])
    ensures IndexEntry(e, parse, imageFn, decode, sink) == IndexEntry(e, parse, otherImageFn, otherDecode, otherSink)
  {
    ParseFailureStopsChain(e, parse, imageFn, decode, otherImageFn, otherDecode);
  }

  /** A reference that is not a digest is reported as such without calling
      the image function, the decoder or the sink. */
  lemma NonDigestReportedWithoutFetch(e: Entry, parse: ReferenceParser, imageFn: ImageFunction,
                                      decode: MetadataDecoder, sink: Sink, otherImageFn: ImageFunction,
                                      otherDecode: MetadataDecoder, otherSink: Sink)
    requires parse(e.address).Success? && !parse(e.address).value.Digest?
    ensures IndexEntry(e, parse, imageFn, decode, sink) == Run(FetchFailed(e, NotDigestError(e.address)), [])
    ensures IndexEntry(e, parse, imageFn, decode, sink) == IndexEntry(e, parse, otherImageFn, otherDecode, otherSink)
  {
    NonDigestNeverFetches(e, parse, imageFn, decode, otherImageFn, otherDecode);
  }

  /** A config file without the metadata label is reported as a missing label
      without calling the decoder or the sink. */
  lemma MissingLabelReportedWithoutDecode(e: Entry, parse: ReferenceParser, imageFn: ImageFunction,
                                          decode: MetadataDecoder, sink: Sink, otherDecode: MetadataDecoder,
                                          ref: Reference, image: Image, configFile: ConfigFile)
    requires parse(e.address) == Success(ref) && ref.Digest?
    requires imageFn(ref) == Success(image) && image.configFile == Success(configFile)
    requires MetadataLabel !in configFile.labels
    ensures IndexEntry(e, parse, imageFn, decode, sink) == Run(FetchFailed(e, MissingLabelError(e.address)), [])
    ensures IndexEntry(e, parse, imageFn, decode, sink) == IndexEntry(e, parse, imageFn, otherDecode, sink)
  {
    MissingLabelNeverDecodes(e, parse, imageFn, decode, otherDecode, ref, image, configFile);
  }

  /** Once the label has decoded to `m`, an ID mismatch is reported whatever
      the version, a version mismatch is reported exactly when the ID matches,
      and in both cases the sink is not called. */
  lemma IdMismatchReportedBeforeVersion(e: Entry, parse: ReferenceParser, imageFn: ImageFunction,
                                        decode: MetadataDecoder, sink: Sink, m: Metadata)
    requires LabelMetadata(e, parse, imageFn, decode) == Some(m)
    ensures m.id != Identity(e) ==>
      IndexEntry(e, parse, imageFn, decode, sink) == Run(FetchFailed(e, InvalidIdError(e.address)), [])
    ensures IndexEntry(e, parse, imageFn, decode, sink) == Run(FetchFailed(e, InvalidVersionError(e.address)), [])
        <==> m.id == Identity(e) && m.version != e.version
  {
    IdentityCheckPrecedesVersionCheck(e, parse, imageFn, decode, m);
  }

  /** The sink is called exactly when the label decodes to metadata whose ID
      and version match the entry, and it then receives that decoded metadata
      unchanged. */
  lemma SinkReceivesDecodedMetadata(e: Entry, parse: ReferenceParser, imageFn: ImageFunction,
                                    decode: MetadataDecoder, sink: Sink)
    ensures IndexEntry(e, parse, imageFn, decode, sink).sinkCalls != []
        <==> LabelMetadata(e, parse, imageFn, decode).Some? && Matches(e, LabelMetadata(e, parse, imageFn, decode).value)
    ensures IndexEntry(e, parse, imageFn, decode, sink).sinkCalls != [] ==>
      IndexEntry(e, parse, imageFn, decode, sink).sinkCalls == [LabelMetadata(e, parse, imageFn, decode).value]
  {
    SuccessReturnsDecodedMetadata(e, parse, imageFn, decode);
  }

  /** The single-entry flow is the batch flow on a batch of one: the same
      outcome as the batch loop gives the entry's record, and the same sink
      call, with the sink's entry argument dropped. */
  lemma SingleEntryIsBatchOfOne(e: Entry, parse: ReferenceParser, imageFn: ImageFunction, decode: MetadataDecoder,
                                sink: Sink)
    ensures var rec := IndexBatch.HandleMetadata(e, parse, imageFn, decode);
      var run := IndexEntry(e, parse, imageFn, decode, sink);
      run.outcome == IndexBatch.Classify(rec, (x: Entry, m: Metadata) => sink(m))
      && IndexBatch.SinkCalls([rec]) == (if run.sinkCalls == [] then [] else [(e, run.sinkCalls[0])])
  {
  }
}
