/** The buildpack entry, its metadata, and the check chain `FetchBuildpackConfig`
    that turns an entry's image label into trusted `Metadata`. The chain is the
    same in cmd/index-buildpack/main.go and in index_buildpack.go; it is modelled
    once here and used by both flows. */
module BuildpackConfig {
  import opened Wrappers

  /** The image label that carries the buildpackage metadata. */
  const MetadataLabel: string := "io.buildpacks.buildpackage.metadata"

  /** One input record: `ns`, `name`, `version`, `addr`. */
  datatype Entry = Entry(namespace: string, name: string, version: string, address: string)

  datatype Stack = Stack(id: string)

  /** The decoded label payload. */
  datatype Metadata = Metadata(id: string, version: string, homepage: string, stacks: seq<Stack>)

  /** A Go error value, identified by its message. */
  datatype Error = Error(message: string)

  /** A parsed address: the two kinds of reference the parser produces. */
  datatype Reference = Tag(repository: string, tag: string) | Digest(repository: string, digest: string)

  /** The part of an image's config file the chain reads: `Config.Labels`. */
  datatype ConfigFile = ConfigFile(labels: map<string, string>)

  /** A fetched image; `configFile` is what its `ConfigFile()` call returns. */
  datatype Image = Image(configFile: Result<ConfigFile, Error>)

  /** Go's `(Metadata, error)` pair. */
  datatype Fetched = Fetched(metadata: Metadata, err: Option<Error>)

  /** What is reported for one entry: the fetch failed, the index update
      failed, or the index was updated. */
  datatype Outcome =
    | FetchFailed(entry: Entry, reason: Error)
    | UpdateFailed(entry: Entry, reason: Error)
    | Updated(entry: Entry)

  /** `name.ParseReference`, injected. */
  type ReferenceParser = string -> Result<Reference, Error>

  /** `ImageFunction` (`remote.Image` in production), injected. */
  type ImageFunction = Reference -> Result<Image, Error>

  /** `json.Unmarshal` of a label payload into `Metadata`, injected. */
  type MetadataDecoder = string -> Result<Metadata, Error>

  /** `Metadata{}`: the value returned beside every error. */
  const ZeroMetadata: Metadata := Metadata("", "", "", [])

  /** `fmt.Sprintf("%s/%s", e.Namespace, e.Name)`. */
  function Identity(e: Entry): (id: string)
    ensures |id| == |e.namespace| + 1 + |e.name|
    ensures id[..|e.namespace|] == e.namespace && id[|e.namespace|] == '/'
    ensures id[|e.namespace| + 1..] == e.name
  {
    e.namespace + "/" + e.name
  }

  /** The two identity checks a successful fetch must pass. */
  predicate Matches(e: Entry, m: Metadata) {
    m.id == Identity(e) && m.version == e.version
  }

  function NotDigestError(address: string): Error {
    Error("address is not a digest: " + address)
  }

  function MissingLabelError(address: string): Error {
    Error("could not find metadata label for " + address)
  }

  function InvalidIdError(address: string): Error {
    Error("invalid ID for " + address)
  }

  function InvalidVersionError(address: string): Error {
    Error("invalid version for " + address)
  }

  /** The metadata the entry's image label decodes to, when parsing yields a
      digest, the image and its config file are read, the label is present and
      decoding succeeds; `None` when any of these fails. This is the reference
      against which the result of `FetchBuildpackConfig` is stated. */
  function LabelMetadata(e: Entry, parse: ReferenceParser, imageFn: ImageFunction,
                         decode: MetadataDecoder): Option<Metadata>
  {
    var ref := parse(e.address);
    if ref.Success? && ref.value.Digest?
       && imageFn(ref.value).Success?
       && imageFn(ref.value).value.configFile.Success?
       && MetadataLabel in imageFn(ref.value).value.configFile.value.labels
       && decode(imageFn(ref.value).value.configFile.value.labels[MetadataLabel]).Success?
    then Some(decode(imageFn(ref.value).value.configFile.value.labels[MetadataLabel]).value)
    else None
  }

  /** The check chain: each failing step returns zero metadata and its error,
      and no later step runs. */
  function FetchBuildpackConfig(e: Entry, parse: ReferenceParser, imageFn: ImageFunction,
                                decode: MetadataDecoder): (r: Fetched)
    ensures r.err.None? ==> Matches(e, r.metadata)
    ensures r.err.Some? ==> r.metadata == ZeroMetadata
    ensures r.err.None? ==> LabelMetadata(e, parse, imageFn, decode) == Some(r.metadata)
  {
    match parse(e.address)
    case Failure(err) => Fetched(ZeroMetadata, Some(err))
    case Success(ref) =>
      if !ref.Digest? then Fetched(ZeroMetadata, Some(NotDigestError(e.address)))
      else
        match imageFn(ref)
        case Failure(err) => Fetched(ZeroMetadata, Some(err))
        case Success(image) =>
          match image.configFile
          case Failure(err) => Fetched(ZeroMetadata, Some(err))
          case Success(configFile) =>
            if MetadataLabel !in configFile.labels then
              Fetched(ZeroMetadata, Some(MissingLabelError(e.address)))
            else
              match decode(configFile.labels[MetadataLabel])
              case Failure(err) => Fetched(ZeroMetadata, Some(err))
              case Success(m) =>
                if Identity(e) != m.id then Fetched(ZeroMetadata, Some(InvalidIdError(e.address)))
                else if e.version != m.version then Fetched(ZeroMetadata, Some(InvalidVersionError(e.address)))
                else Fetched(m, None)
  }

  /** The loop that collects the stack IDs of decoded metadata. The chain
      discards the collected slice, so `FetchBuildpackConfig` does not depend
      on it. */
  method CollectStackIds(stacks: seq<Stack>) returns (ids: seq<string>)
    ensures |ids| == |stacks|
    ensures forall i :: 0 <= i < |stacks| ==> ids[i] == stacks[i].id
  {
    ids := [];
    for i := 0 to |stacks|
      invariant |ids| == i
      invariant forall j :: 0 <= j < i ==> ids[j] == stacks[j].id
    {
      ids := ids + [stacks[i].id];
    }
  }

  /** A parse failure is returned as is, with zero metadata, and neither the
      image function nor the decoder is consulted. */
  lemma ParseFailureStopsChain(e: Entry, parse: ReferenceParser, imageFn: ImageFunction, decode: MetadataDecoder,
                               otherImageFn: ImageFunction, otherDecode: MetadataDecoder)
    requires parse(e.address).Failure?
    ensures FetchBuildpackConfig(e, parse, imageFn, decode) == Fetched(ZeroMetadata, Some(parse(e.address).error))
    ensures FetchBuildpackConfig(e, parse, imageFn, decode) == FetchBuildpackConfig(e, parse, otherImageFn, otherDecode)
  {
  }

  /** A reference that is not a digest is rejected with "address is not a
      digest: <addr>" before the image function is reached. */
  lemma NonDigestNeverFetches(e: Entry, parse: ReferenceParser, imageFn: ImageFunction, decode: MetadataDecoder,
                              otherImageFn: ImageFunction, otherDecode: MetadataDecoder)
    requires parse(e.address).Success? && !parse(e.address).value.Digest?
    ensures FetchBuildpackConfig(e, parse, imageFn, decode) == Fetched(ZeroMetadata, Some(NotDigestError(e.address)))
    ensures FetchBuildpackConfig(e, parse, imageFn, decode) == FetchBuildpackConfig(e, parse, otherImageFn, otherDecode)
  {
  }

  /** Errors of the image function and of the config-file read are returned
      unchanged, with zero metadata, and the decoder is not consulted. */
  lemma FetchErrorsPropagate(e: Entry, parse: ReferenceParser, imageFn: ImageFunction, decode: MetadataDecoder,
                             otherDecode: MetadataDecoder, ref: Reference)
    requires parse(e.address) == Success(ref) && ref.Digest?
    ensures imageFn(ref).Failure? ==>
      FetchBuildpackConfig(e, parse, imageFn, decode) == Fetched(ZeroMetadata, Some(imageFn(ref).error))
    ensures imageFn(ref).Success? && imageFn(ref).value.configFile.Failure? ==>
      FetchBuildpackConfig(e, parse, imageFn, decode) == Fetched(ZeroMetadata, Some(imageFn(ref).value.configFile.error))
    ensures imageFn(ref).Failure? || imageFn(ref).value.configFile.Failure? ==>
      FetchBuildpackConfig(e, parse, imageFn, decode) == FetchBuildpackConfig(e, parse, imageFn, otherDecode)
  {
  }

  /** A config file without the metadata label yields "could not find metadata
      label for <addr>", and decoding is not attempted. */
  lemma MissingLabelNeverDecodes(e: Entry, parse: ReferenceParser, imageFn: ImageFunction, decode: MetadataDecoder,
                                 otherDecode: MetadataDecoder, ref: Reference, image: Image, configFile: ConfigFile)
    requires parse(e.address) == Success(ref) && ref.Digest?
    requires imageFn(ref) == Success(image) && image.configFile == Success(configFile)
    requires MetadataLabel !in configFile.labels
    ensures FetchBuildpackConfig(e, parse, imageFn, decode) == Fetched(ZeroMetadata, Some(MissingLabelError(e.address)))
    ensures FetchBuildpackConfig(e, parse, imageFn, decode) == FetchBuildpackConfig(e, parse, imageFn, otherDecode)
  {
  }

  /** A label payload that does not decode yields the decoder's error. */
  lemma MalformedLabelPropagates(e: Entry, parse: ReferenceParser, imageFn: ImageFunction, decode: MetadataDecoder,
                                 ref: Reference, image: Image, configFile: ConfigFile)
    requires parse(e.address) == Success(ref) && ref.Digest?
    requires imageFn(ref) == Success(image) && image.configFile == Success(configFile)
    requires MetadataLabel in configFile.labels && decode(configFile.labels[MetadataLabel]).Failure?
    ensures FetchBuildpackConfig(e, parse, imageFn, decode)
         == Fetched(ZeroMetadata, Some(decode(configFile.labels[MetadataLabel]).error))
  {
  }

  /** The two invalid-metadata messages differ, whatever the address. */
  lemma IdAndVersionErrorsDiffer(address: string)
    ensures InvalidIdError(address) != InvalidVersionError(address)
  {
    assert InvalidIdError(address).message[8] == 'I';
    assert InvalidVersionError(address).message[8] == 'v';
  }

  /** Once the label has decoded to `m`, an ID mismatch is reported whatever
      the version, and a version mismatch is reported exactly when the ID
      matches and the version does not. */
  lemma IdentityCheckPrecedesVersionCheck(e: Entry, parse: ReferenceParser, imageFn: ImageFunction,
                                          decode: MetadataDecoder, m: Metadata)
    requires LabelMetadata(e, parse, imageFn, decode) == Some(m)
    ensures m.id != Identity(e) ==>
      FetchBuildpackConfig(e, parse, imageFn, decode) == Fetched(ZeroMetadata, Some(InvalidIdError(e.address)))
    ensures FetchBuildpackConfig(e, parse, imageFn, decode).err == Some(InvalidVersionError(e.address))
        <==> m.id == Identity(e) && m.version != e.version
  {
    IdAndVersionErrorsDiffer(e.address);
  }

  /** The chain succeeds exactly when the label decodes to metadata whose ID
      and version match the entry, and it then returns that metadata unchanged:
      the same homepage and the same stacks, in the same order. */
  lemma SuccessReturnsDecodedMetadata(e: Entry, parse: ReferenceParser, imageFn: ImageFunction,
                                      decode: MetadataDecoder)
    ensures FetchBuildpackConfig(e, parse, imageFn, decode).err.None?
        <==> LabelMetadata(e, parse, imageFn, decode).Some? && Matches(e, LabelMetadata(e, parse, imageFn, decode).value)
    ensures FetchBuildpackConfig(e, parse, imageFn, decode).err.None? ==>
      Some(FetchBuildpackConfig(e, parse, imageFn, decode).metadata) == LabelMetadata(e, parse, imageFn, decode)
  {
  }
}
