/**
 * The two kinds of definition file and the kind dispatch of parseYamlFile. YAML decoding is
 * not modelled: the caller supplies what each of the two decoding attempts produced.
 */
module Config {
  import opened Results

  /** One declared source: a locator, the repository sub-directories and the extension filter. */
  datatype SourceDescriptor = SourceDescriptor(locator: string, dirs: seq<string>, extensions: seq<string>)

  /** A Documents-kind file: its kind field, metadata.name (the tag) and its sources. */
  datatype DocumentsDef = DocumentsDef(kind: string, name: string, sources: seq<SourceDescriptor>)

  /** One item of spec.meta.knowledge. */
  datatype KnowledgeRef = KnowledgeRef(tags: string)

  /** A Model-kind file; spec.id and spec.name are decoded but never used. */
  datatype ModelDef = ModelDef(
    kind: string,
    name: string,
    specId: string,
    specName: string,
    baseModelId: string,
    profileImageUrl: string,
    description: string,
    vision: bool,
    suggestionPrompts: seq<string>,
    knowledge: seq<KnowledgeRef>,
    params: Option<map<string, string>>)

  /** The closed union of what parseYamlFile can return. */
  datatype Definition = Documents(documents: DocumentsDef) | Model(model: ModelDef)

  /**
   * What reading the file and decoding it produced: whether it could be read, and the record
   * each decoding attempt yielded (None when yaml.Unmarshal reported an error).
   */
  datatype Decoded = Decoded(readable: bool, asDocuments: Option<DocumentsDef>, asModel: Option<ModelDef>)

  const DocumentsKind: string := "Documents"
  const ModelKind: string := "Model"

  /** parseYamlFile: try the Documents record first, then the Model record, else unknown kind. */
  function ParseYamlFile(file: string, d: Decoded): Result<Definition> {
    if !d.readable then Err(ReadFailed(file))
    else if d.asDocuments.Some? && d.asDocuments.value.kind == DocumentsKind then Ok(Documents(d.asDocuments.value))
    else if d.asModel.Some? && d.asModel.value.kind == ModelKind then Ok(Model(d.asModel.value))
    else Err(UnknownKind(file))
  }

  /**
   * Both attempts decode the same bytes, so when both succeed they see the same kind field:
   * the result is then decided by that one string.
   */
  lemma ParseByKind(file: string, kind: string, docs: DocumentsDef, model: ModelDef)
    requires docs.kind == kind && model.kind == kind
    ensures var r := ParseYamlFile(file, Decoded(true, Some(docs), Some(model)));
      && (kind == "Documents" ==> r == Ok(Documents(docs)))
      && (kind == "Model" ==> r == Ok(Model(model)))
      && (kind != "Documents" && kind != "Model" ==> r == Err(UnknownKind(file)))
  {
  }

  /** The Documents attempt takes precedence: a Model record is returned only when it fails. */
  lemma ParseDispatch(file: string, d: Decoded)
    requires d.readable
    ensures ParseYamlFile(file, d).Ok? && ParseYamlFile(file, d).value.Documents? <==>
      d.asDocuments.Some? && d.asDocuments.value.kind == "Documents"
    ensures ParseYamlFile(file, d).Ok? && ParseYamlFile(file, d).value.Model? <==>
      !(d.asDocuments.Some? && d.asDocuments.value.kind == "Documents") &&
      d.asModel.Some? && d.asModel.value.kind == "Model"
    ensures ParseYamlFile(file, d).Ok? ==>
      (d.asDocuments.Some? && ParseYamlFile(file, d).value == Documents(d.asDocuments.value)) ||
      (d.asModel.Some? && ParseYamlFile(file, d).value == Model(d.asModel.value))
    ensures ParseYamlFile(file, d).Err? ==> ParseYamlFile(file, d).error == UnknownKind(file)
  {
  }

  /** A file that cannot be read is reported as an error before any decoding. */
  lemma UnreadableFileFails(file: string, d: Decoded)
    requires !d.readable
    ensures ParseYamlFile(file, d) == Err(ReadFailed(file))
  {
  }
}
