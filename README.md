# Buildpack registry indexer, modelled in Dafny

This project models the indexer that fills a buildpack registry index. Each input
entry names a namespace, a name, a version and an image address. The indexer
parses the address and rejects anything that is not digest-qualified. It then
fetches the image and reads its config file. It takes the
`io.buildpacks.buildpackage.metadata` label and decodes it as `Metadata`. It
checks that the metadata's `ID` is `namespace/name` and that its `Version` is
the entry's version. Only then does it hand the metadata to the index sink
`UpdateOrInsertConfig`. The repository contains two flows:

- the batch flow in `cmd/index-buildpack/main.go`. One goroutine per entry runs
  the checks and sends an `IndexRecord` on a channel. A single loop drains
  exactly one record per entry. It reports an errored record and skips it. It
  sends an error-free record to the sink and reports whether the update
  succeeded.
- the single-entry flow in `index_buildpack.go`. It runs the same check chain
  on one entry, then calls the one-argument sink, and reports one of three
  outcomes.

Modules:

- `Wrappers` (`wrappers.dfy`): `Option` (a Go error that may be nil) and
  `Result` (a `(value, error)` return of an injected call).
- `BuildpackConfig` (`buildpack_config.dfy`): the entry, metadata, stack,
  reference, image and config-file data, the outcome kinds, and the check chain
  `FetchBuildpackConfig`. The chain is the same, byte for byte, in both Go
  files (`cmd/index-buildpack/main.go:98-144` and `index_buildpack.go:66-112`),
  so it is defined once and used by both flows.
- `IndexBatch` (`index_batch.dfy`): `HandleMetadata`, the fan-out, the outcome
  of one drained record, and the drain loop `BuildIndex`.
- `IndexSingle` (`index_single.dfy`): the outcome decision of the single-entry
  flow, `IndexEntry`.
- `Permutations` (`permutations.dfy`): mapping over a sequence, and the fact
  that mapping keeps permutations. It is used to show that arrival order does
  not change the outcomes.

The library calls are parameters of the model. These are `name.ParseReference`
(a `ReferenceParser`), the image function (an `ImageFunction`, which is
`remote.Image` in production), the image's `ConfigFile()` result (the
`configFile` field of an `Image`), and `json.Unmarshal` of the label (a
`MetadataDecoder`). The sink is a parameter too. The model states that a step
is "never reached" as independence: the result is the same for every other
image function, decoder or sink.

The channel is modelled by the order in which records arrive. `BuildIndex`
takes `received`, any permutation of the records the fan-out sends, and drains
it with a loop. It returns the outcomes and the log of sink calls.

## Model

| member | source | states |
|---|---|---|
| `BuildpackConfig.FetchBuildpackConfig` | cmd/index-buildpack/main.go:98-144 | On success the metadata's ID is `namespace/name` and its version is the entry's version, and it is the label's decoded metadata; on any error the metadata is `Metadata{}` |
| `BuildpackConfig.Identity` | cmd/index-buildpack/main.go:129 | The identity is the namespace, then one `/`, then the name |
| `BuildpackConfig.CollectStackIds` | cmd/index-buildpack/main.go:138-141 | The collected slice has one ID per stack, in stack order |
| `BuildpackConfig.ParseFailureStopsChain` | cmd/index-buildpack/main.go:99-102 | A parse error is returned unchanged with zero metadata, and the result does not depend on the image function or the decoder |
| `BuildpackConfig.NonDigestNeverFetches` | cmd/index-buildpack/main.go:104-107 | A non-digest reference yields "address is not a digest: <addr>" with zero metadata, whatever the image function and decoder are |
| `BuildpackConfig.FetchErrorsPropagate` | cmd/index-buildpack/main.go:109-117 | Errors of the image function and of the config-file read are returned unchanged with zero metadata, and the decoder is not consulted |
| `BuildpackConfig.MissingLabelNeverDecodes` | cmd/index-buildpack/main.go:119-122 | A config file without the metadata label yields "could not find metadata label for <addr>", whatever the decoder is |
| `BuildpackConfig.MalformedLabelPropagates` | cmd/index-buildpack/main.go:124-127 | A label that does not decode yields the decoder's error with zero metadata |
| `BuildpackConfig.IdAndVersionErrorsDiffer` | cmd/index-buildpack/main.go:129-136 | The "invalid ID" and "invalid version" errors are distinct for every address |
| `BuildpackConfig.IdentityCheckPrecedesVersionCheck` | cmd/index-buildpack/main.go:129-136 | After a successful decode, an ID mismatch gives "invalid ID" whatever the version; "invalid version" is given exactly when the ID matches and the version does not |
| `BuildpackConfig.SuccessReturnsDecodedMetadata` | cmd/index-buildpack/main.go:129-143 | The chain succeeds exactly when the label decodes to metadata matching the entry's ID and version, and then returns that metadata unchanged, stacks included |
| `IndexBatch.HandleMetadata` | cmd/index-buildpack/main.go:89-96 | The record carries the entry unchanged, together with the metadata and error of that entry's fetch |
| `IndexBatch.FanOut` | cmd/index-buildpack/main.go:70-72 | Exactly one record per entry, the i-th being the record of the i-th entry |
| `IndexBatch.Classify` | cmd/index-buildpack/main.go:76-85 | An errored record is a fetch failure with its own error; an error-free record is an update failure exactly when the sink returns an error, and carries that error |
| `IndexBatch.SinkCalls` | cmd/index-buildpack/main.go:76-79 | The number of sink calls is the number of error-free records |
| `IndexBatch.SinkCallsCountRecords` | cmd/index-buildpack/main.go:74-86 | Each `(entry, metadata)` is passed to the sink exactly as often as an error-free record with that entry and metadata is drained |
| `IndexBatch.BuildIndex` | cmd/index-buildpack/main.go:67-87 | Drains exactly one record per entry and reports one outcome each, in arrival order, each outcome depending only on its own record; the sink gets exactly the error-free records, their number equals the error-free fetches, and every sink call carries metadata matching its entry; whatever the arrival order, every entry's own outcome is reported |
| `IndexBatch.OutcomesAreOrderIndependent` | cmd/index-buildpack/main.go:68-86 | For any arrival order, the multiset of outcomes is that of the entries in batch order, and every entry's own outcome is among them |
| `IndexBatch.OutcomesRespectPermutation` | cmd/index-buildpack/main.go:74-86 | Draining a permutation of the records gives a permutation of the outcomes, and every record's outcome is among them |
| `IndexBatch.SinkCallsAreValidatedFetches` | cmd/index-buildpack/main.go:74-86 | For any arrival order, the sink is called once per error-free fetch, and every call carries an entry of the batch with metadata matching its ID and version |
| `IndexBatch.DrainOneMore` | cmd/index-buildpack/main.go:74-86 | Draining one more record appends its outcome, and appends its sink call exactly when the record is error-free |
| `IndexBatch.SinkCallsRespectPermutation` | cmd/index-buildpack/main.go:74-86 | Arrival order does not change the multiset of sink calls |
| `IndexBatch.ErrorFreeRecordCameFromEntry` | cmd/index-buildpack/main.go:89-96 | An error-free record sent by the fan-out belongs to one of the entries and its metadata matches that entry's ID and version |
| `IndexBatch.EntriesAreIsolated` | cmd/index-buildpack/main.go:70-86 | Replacing one entry by any other leaves every other entry's outcome unchanged |
| `IndexBatch.UpdateOrInsertConfig` | cmd/index-buildpack/main.go:146-153 | The stub sink returns no error for any entry and metadata |
| `IndexBatch.StubSinkNeverFailsUpdate` | cmd/index-buildpack/main.go:146-153 | With the stub sink, an error-free record is always reported as updated |
| `IndexSingle.IndexEntry` | index_buildpack.go:51-63 | A fetch is reported as failed exactly when the check chain returns an error, and then with that error and no sink call; otherwise the sink is called once with the chain's metadata, which matches the entry, and its answer decides between update failure (with its error) and update |
| `IndexSingle.UpdateOrInsertConfig` | index_buildpack.go:114-120 | The stub sink returns no error for any metadata |
| `IndexSingle.FetchFailureSkipsSink` | index_buildpack.go:51-55 | A fetch error is reported with that error, and the run is the same whatever the sink would answer |
| `IndexSingle.SinkDecidesOutcome` | index_buildpack.go:57-63 | After a successful fetch the sink gets the fetched metadata; a sink error is an update failure with that error, otherwise the entry is updated |
| `IndexSingle.StubSinkIndexesEveryValidEntry` | index_buildpack.go:114-120 | With the stub sink no update fails, and the entry is updated exactly when its label decodes to matching metadata |
| `IndexSingle.ParseFailureReportedFirst` | index_buildpack.go:67-70 | A parse error is reported before the digest check, independently of the image function, decoder and sink |
| `IndexSingle.NonDigestReportedWithoutFetch` | index_buildpack.go:72-75 | A non-digest reference is reported as not a digest, without the image function, decoder or sink being consulted |
| `IndexSingle.MissingLabelReportedWithoutDecode` | index_buildpack.go:87-90 | A missing label is reported as such, independently of the decoder, and the sink is not called |
| `IndexSingle.IdMismatchReportedBeforeVersion` | index_buildpack.go:97-104 | After a successful decode, an ID mismatch is reported whatever the version; a version mismatch is reported exactly when the ID matches |
| `IndexSingle.SinkReceivesDecodedMetadata` | index_buildpack.go:97-111 | The sink is called exactly when the label decodes to matching metadata, and it receives that metadata unchanged |
| `IndexSingle.SingleEntryIsBatchOfOne` | index_buildpack.go:51-63 | The single-entry flow gives the same outcome and the same sink call as the batch loop gives that entry's record |

## Left out

- The command-line front ends: `os.Args` checks, `ioutil.ReadFile`, `json.Unmarshal` of the entry list or entry, and `os.Exit` (`cmd/index-buildpack/main.go:45-65`, `index_buildpack.go:38-49`), because they are input handling outside the core.
- The log lines written with `fmt.Printf`/`fmt.Println`, and the stub's `println` (`index_buildpack.go:118`), because they are output formatting. Each outcome records the entry, and the error where there is one, which is what the log lines show.
- The internals of `name.ParseReference`, `remote.Image`, `ConfigFile()` and `json.Unmarshal`, because they belong to libraries that are not part of this model; each is an injected function. The variadic `remote.Option` arguments are dropped.
- A `ConfigFile()` call that returns a nil config file with a nil error, because the Go code would panic there and the model has no such value.
- Goroutines and the unbuffered channel, because concurrency is not modelled. Delivery is an arbitrary permutation of the sent records. Blocking and scheduling are not modelled, nor is the absence of deadlock.
- Go error identity. `errors.New` makes a fresh error value, but the model identifies an error by its message.
- `IndexBatch.BuildIndex`: the sink is a pure function of its arguments, so its answer cannot depend on earlier calls. Idempotence of a real index store is not stated, because the source's sink is a stub.
- `IndexBatch.FanOut`: the image function and the `ConfigFile()` result are pure functions of the reference. So two entries with the same address always get the same fetch result. The Go code makes a separate `remote.Image` call per entry (`cmd/index-buildpack/main.go:71`), and two such calls can differ, for example when one of them hits a transient network error. No proved property depends on the two fetches agreeing.
- `BuildpackConfig.CollectStackIds`: the Go code computes the `stacks` slice and then discards it. The model proves what the loop computes, and `FetchBuildpackConfig` returns the decoded metadata without using it.

Three facts about the Go code shape the model:

- Every failure of the check chain is logged as a failed fetch (`cmd/index-buildpack/main.go:76-77`, `index_buildpack.go:51-55`). This covers the digest, label and identity checks as well. So `Outcome` has one `FetchFailed` kind, and it carries the chain's error.
- The chain's own errors are built from message strings with `errors.New(fmt.Sprintf(...))`, and library errors are passed through as they are. So `Error` is a message.
- In `index_buildpack.go:57` the sink receives only the metadata, not the entry. So `IndexSingle.Sink` takes one argument.
