/**
 * `DccdProjectImporter`: turning an unzipped bundle (a TRiDaS file, a
 * `values` folder of raw measurement files and an `associated` folder)
 * into a stored project.  The TRiDaS parser, the raw-file parser, the
 * data-file indicator test and the store are services outside this model;
 * they come in as parameters.  The core here is the metadata defaulting,
 * the first-indicator scan per series and the placeholder-fill merge of
 * loaded value groups into a series.
 */
module DccdProjectImporter {
  import opened Wrappers
  import opened Text
  import opened Tridas
  import opened FileExtractor

  // ----- metadata -----

  /** `DccdArchivalMetaData`. */
  datatype Metadata = Metadata(valuesFormat: string, language: string)

  const DEFAULT_VALUES_FORMAT: string := "Heidelberg"
  const DEFAULT_LANGUAGE: string := "en"

  /**
   * What reading the metadata file gives: a failure to read or parse it
   * (IOException, SAXException, ParserConfigurationException), or the text
   * at `/dccdmetadata/language` and `/dccdmetadata/values/format`, `None`
   * where the XPath result is null.
   */
  datatype MetadataDocument = Unreadable | Document(language: Option<string>, format: Option<string>)

  /** The ways an import fails; each stands for the exception named. */
  datatype ImportError =
    | WrongMetadata                 // IOException("wrong metadata")
    | NoMetadataFile                // IllegalArgumentException from parsing a null file
    | TridasLoadFailed              // IOException wrapping the TRiDaS parser's failure
    | ValuesFolderMissing           // NullPointerException: a data file looked up in a null folder
    | DataFileNotFound(name: string) // ArrayIndexOutOfBoundsException in findFileNoCase
    | LoadFailed(name: string)      // IOException wrapping the raw-file parser's failure
    | AssociatedFolderMissing       // NullPointerException: an associated file in a null folder
    | AssociatedFileMissing(name: string) // IOException from addAssociatedFile: no such file to read
    | StoreFailed                   // IOException wrapping DataServiceException

  /** A present value that is not blank replaces the setting, trimmed. */
  function Setting(found: Option<string>, fallback: string): string
  {
    if found.Some? && Trim(found.value) != [] then Trim(found.value) else fallback
  }

  /** The settings a parsed metadata file gives, starting from the defaults. */
  function SettingsOf(doc: MetadataDocument): Metadata
  {
    match doc
    case Unreadable => Metadata(DEFAULT_VALUES_FORMAT, DEFAULT_LANGUAGE)
    case Document(language, format) =>
      Metadata(Setting(format, DEFAULT_VALUES_FORMAT), Setting(language, DEFAULT_LANGUAGE))
  }

  /**
   * `loadMetadata(projectFolder)` as intended: the metadata file is the first
   * xml file next to the project folder; without one, or when it cannot be
   * read, the defaults stand.  Both settings are non-empty and trimmed.
   */
  function LoadMetadata(parentListing: seq<Entry>, parse: Entry -> MetadataDocument): (m: Metadata)
    ensures m.language != [] && Trim(m.language) == m.language
    ensures m.valuesFormat != [] && Trim(m.valuesFormat) == m.valuesFormat
    ensures GetArchivalMetaDataFile(parentListing).None? ==> m == Metadata(DEFAULT_VALUES_FORMAT, DEFAULT_LANGUAGE)
  {
    var file := GetArchivalMetaDataFile(parentListing);
    var m := if file.None? then Metadata(DEFAULT_VALUES_FORMAT, DEFAULT_LANGUAGE) else SettingsOf(parse(file.value));
    SettingIsTrimmed(if file.Some? && parse(file.value).Document? then parse(file.value).language else None, DEFAULT_LANGUAGE);
    SettingIsTrimmed(if file.Some? && parse(file.value).Document? then parse(file.value).format else None, DEFAULT_VALUES_FORMAT);
    m
  }

  /** A setting is never blank and never has surrounding white space. */
  lemma SettingIsTrimmed(found: Option<string>, fallback: string)
    requires fallback != [] && Trim(fallback) == fallback
    ensures Setting(found, fallback) != [] && Trim(Setting(found, fallback)) == Setting(found, fallback)
  {
    if found.Some? && Trim(found.value) != [] {
      TrimIdempotent(found.value);
    }
  }

  /** A value found wins over the fallback exactly when it is present and not blank. */
  lemma SettingOverridesFallback(found: Option<string>, fallback: string)
    ensures found.Some? && !IsBlank(found.value) ==> Setting(found, fallback) == Trim(found.value)
    ensures found.None? || IsBlank(found.value) ==> Setting(found, fallback) == fallback
  {
    if found.Some? {
      TrimEmptyIffBlank(found.value);
    }
  }

  /**
   * A value found in the metadata file wins over the default exactly when it
   * is present and not blank; a file that cannot be read keeps both defaults.
   */
  lemma LoadedSettingsOverrideDefaults(parentListing: seq<Entry>, parse: Entry -> MetadataDocument)
    ensures var file := GetArchivalMetaDataFile(parentListing);
      file.Some? ==> match parse(file.value)
        case Unreadable => LoadMetadata(parentListing, parse) == Metadata(DEFAULT_VALUES_FORMAT, DEFAULT_LANGUAGE)
        case Document(language, format) =>
          && (language.Some? && !IsBlank(language.value) ==> LoadMetadata(parentListing, parse).language == Trim(language.value))
          && (language.None? || IsBlank(language.value) ==> LoadMetadata(parentListing, parse).language == DEFAULT_LANGUAGE)
          && (format.Some? && !IsBlank(format.value) ==> LoadMetadata(parentListing, parse).valuesFormat == Trim(format.value))
          && (format.None? || IsBlank(format.value) ==> LoadMetadata(parentListing, parse).valuesFormat == DEFAULT_VALUES_FORMAT)
  {
    var file := GetArchivalMetaDataFile(parentListing);
    if file.Some? && parse(file.value).Document? {
      var doc := parse(file.value);
      SettingOverridesFallback(doc.language, DEFAULT_LANGUAGE);
      SettingOverridesFallback(doc.format, DEFAULT_VALUES_FORMAT);
    }
  }

  /**
   * `loadMetadata` as written: the file found is handed to
   * `DocumentBuilder.parse` even when it is null, which throws an
   * IllegalArgumentException that no catch clause handles.
   */
  function LoadMetadataAsWritten(parentListing: seq<Entry>, parse: Entry -> MetadataDocument): (r: Result<Metadata, ImportError>)
    ensures r.Failure? <==> GetArchivalMetaDataFile(parentListing).None?
    ensures r.Failure? ==> r.error == NoMetadataFile
    ensures r.Success? ==> r.value == LoadMetadata(parentListing, parse)
  {
    var file := GetArchivalMetaDataFile(parentListing);
    if file.None? then Failure(NoMetadataFile) else Success(SettingsOf(parse(file.value)))
  }

  /**
   * A bundle whose folder holds only the data folder: as written the import
   * aborts, while the defaults were evidently meant to apply.
   */
  lemma NoMetadataFileAborts(parse: Entry -> MetadataDocument)
    ensures LoadMetadataAsWritten([Entry("data", Directory, [])], parse) == Failure(NoMetadataFile)
    ensures LoadMetadata([Entry("data", Directory, [])], parse) == Metadata(DEFAULT_VALUES_FORMAT, DEFAULT_LANGUAGE)
  {
    var listing := [Entry("data", Directory, [])];
    assert !HasExtension(listing[0], "xml");
  }

  /** `validateMetadata`: the values format must be one the raw-file parser reads. */
  function ValidateMetadata(m: Metadata, readingFormats: seq<string>): (ok: bool)
    ensures ok <==> exists i :: 0 <= i < |readingFormats| && readingFormats[i] == m.valuesFormat
  {
    m.valuesFormat in readingFormats
  }

  // ----- series entities and their values -----

  /** A sub-entity of a series entity in the entity tree. */
  datatype SubEntity = ValuesEntity(values: Values) | OtherEntity

  /**
   * A measurement- or derived-series entity: the generic fields of its
   * TRiDaS series, its sub-entities, and the values list of its TRiDaS series.
   */
  class SeriesEntity {
    var genericFields: seq<GenericField>
    var dendroEntities: seq<SubEntity>
    var tridasValues: seq<Values>

    constructor (genericFields: seq<GenericField>, dendroEntities: seq<SubEntity>, tridasValues: seq<Values>)
      ensures this.genericFields == genericFields && this.dendroEntities == dendroEntities
      ensures this.tridasValues == tridasValues
    {
      this.genericFields := genericFields;
      this.dendroEntities := dendroEntities;
      this.tridasValues := tridasValues;
    }
  }

  /** The value blocks the sub-entities hold. */
  function ValuesOf(subs: seq<SubEntity>): set<Values>
  {
    set i | 0 <= i < |subs| && subs[i].ValuesEntity? :: subs[i].values
  }

  /** No value block is held by two sub-entities. */
  predicate DistinctValues(subs: seq<SubEntity>)
  {
    forall i, j :: 0 <= i < j < |subs| && subs[i].ValuesEntity? && subs[j].ValuesEntity? ==> subs[i].values != subs[j].values
  }

  /** The placeholders: the value blocks without readings, in sub-entity order. */
  function EmptyValues(subs: seq<SubEntity>): (ph: seq<Values>)
    reads ValuesOf(subs)
    ensures forall i :: 0 <= i < |ph| ==> ph[i] in ValuesOf(subs) && ph[i].readings == []
    ensures forall i :: 0 <= i < |subs| && subs[i].ValuesEntity? && subs[i].values.readings == [] ==> subs[i].values in ph
    ensures DistinctValues(subs) ==> forall i, j :: 0 <= i < j < |ph| ==> ph[i] != ph[j]
  {
    if subs == [] then []
    else
      var init := subs[..|subs| - 1];
      var last := subs[|subs| - 1];
      assert ValuesOf(init) <= ValuesOf(subs) by {
        forall v | v in ValuesOf(init) ensures v in ValuesOf(subs) {
          var i :| 0 <= i < |init| && init[i].ValuesEntity? && init[i].values == v;
          assert subs[i] == init[i];
        }
      }
      var ph := EmptyValues(init);
      if last.ValuesEntity? && last.values.readings == [] then
        assert last.values in ValuesOf(subs);
        assert DistinctValues(subs) ==> last.values !in ValuesOf(init);
        ph + [last.values]
      else ph
  }

  /** `getEmptyTridasValues(series)`. */
  method GetEmptyTridasValues(series: SeriesEntity) returns (emptyValues: seq<Values>)
    ensures emptyValues == EmptyValues(series.dendroEntities)
  {
    var subEntities := series.dendroEntities;
    emptyValues := [];
    for i := 0 to |subEntities|
      invariant emptyValues == EmptyValues(subEntities[..i])
    {
      assert subEntities[..i + 1][..i] == subEntities[..i];
      if subEntities[i].ValuesEntity? && !subEntities[i].values.IsSetValues() {
        emptyValues := emptyValues + [subEntities[i].values];
      }
    }
    assert subEntities[..|subEntities|] == subEntities;
  }

  /** The groups left over once the `p` placeholders are filled. */
  function Surplus(groups: seq<Values>, p: nat): (s: seq<Values>)
    ensures |s| == if |groups| > p then |groups| - p else 0
    ensures forall i :: 0 <= i < |s| ==> s[i] == groups[p + i]
  {
    if |groups| > p then groups[p..] else []
  }

  /** One new values entity per block. */
  function Wrapped(vs: seq<Values>): (subs: seq<SubEntity>)
    ensures |subs| == |vs|
    ensures forall i :: 0 <= i < |vs| ==> subs[i] == ValuesEntity(vs[i])
  {
    if vs == [] then [] else Wrapped(vs[..|vs| - 1]) + [ValuesEntity(vs[|vs| - 1])]
  }

  /**
   * `addValuesToSeriesEntity(series, groups)`, the placeholder-fill merge.
   * With P placeholders and V groups, the first min(P, V) placeholders take
   * the readings of the group with the same index and keep their variable
   * and unit; the others stay empty; the V - P groups left over, if any, are
   * appended in order both as new values entities and to the TRiDaS
   * series' values.  The groups come fresh from the raw-file parser, so none
   * of them is a block of the series.
   */
  method AddValuesToSeriesEntity(series: SeriesEntity, groups: seq<Values>)
    requires DistinctValues(series.dendroEntities)
    requires forall i :: 0 <= i < |groups| ==> groups[i] !in ValuesOf(series.dendroEntities)
    modifies series`dendroEntities, series`tridasValues, ValuesOf(series.dendroEntities)
    ensures var ph := old(EmptyValues(series.dendroEntities));
      forall i :: 0 <= i < |ph| && i < |groups| ==> ph[i].readings == groups[i].readings
    ensures var ph := old(EmptyValues(series.dendroEntities));
      forall i :: |groups| <= i < |ph| ==> ph[i].readings == []
    ensures var ph := old(EmptyValues(series.dendroEntities));
      forall i :: 0 <= i < |ph| ==> ph[i].variable == old(ph[i].variable) && ph[i].unit == old(ph[i].unit)
    ensures series.dendroEntities
      == old(series.dendroEntities) + Wrapped(Surplus(groups, |old(EmptyValues(series.dendroEntities))|))
    ensures series.tridasValues == old(series.tridasValues) + Surplus(groups, |old(EmptyValues(series.dendroEntities))|)
    ensures forall i :: 0 <= i < |groups| ==> groups[i].readings == old(groups[i].readings)
  {
    var placeholders := GetEmptyTridasValues(series);
    var numberOfValuesToAdd := |groups|;
    var numberOfPlaceholders := |placeholders|;
    var numberOfValuesToAddToPlaceholders := numberOfValuesToAdd;
    if numberOfValuesToAdd > numberOfPlaceholders {
      numberOfValuesToAddToPlaceholders := numberOfPlaceholders;
    }
    FillPlaceholders(placeholders, groups, numberOfValuesToAddToPlaceholders);
    label Filled:
    if numberOfValuesToAdd > numberOfPlaceholders {
      AppendValuesEntities(series, groups, numberOfPlaceholders);
    } else {
      assert Surplus(groups, numberOfPlaceholders) == [];
    }
    assert forall i :: 0 <= i < |groups| ==> groups[i].readings == old@Filled(groups[i].readings);
  }

  /** The first loop of `addValuesToSeriesEntity`: placeholder i takes the readings of group i, for i < n. */
  method FillPlaceholders(placeholders: seq<Values>, groups: seq<Values>, n: nat)
    requires n <= |placeholders| && n <= |groups|
    requires forall i, j :: 0 <= i < j < |placeholders| ==> placeholders[i] != placeholders[j]
    requires forall i, j :: 0 <= i < |placeholders| && 0 <= j < |groups| ==> placeholders[i] != groups[j]
    modifies placeholders
    ensures forall i :: 0 <= i < n ==> placeholders[i].readings == old(placeholders[i].readings) + groups[i].readings
    ensures forall i :: n <= i < |placeholders| ==> placeholders[i].readings == old(placeholders[i].readings)
    ensures forall i :: 0 <= i < |placeholders| ==>
      placeholders[i].variable == old(placeholders[i].variable) && placeholders[i].unit == old(placeholders[i].unit)
    ensures forall j :: 0 <= j < |groups| ==> groups[j].readings == old(groups[j].readings)
  {
    for i := 0 to n
      invariant forall j :: 0 <= j < i ==> placeholders[j].readings == old(placeholders[j].readings) + groups[j].readings
      invariant forall j :: i <= j < |placeholders| ==> placeholders[j].readings == old(placeholders[j].readings)
      invariant forall j :: 0 <= j < |placeholders| ==>
        placeholders[j].variable == old(placeholders[j].variable) && placeholders[j].unit == old(placeholders[j].unit)
      invariant forall j :: 0 <= j < |groups| ==> groups[j].readings == old(groups[j].readings)
    {
      placeholders[i].readings := placeholders[i].readings + groups[i].readings;
    }
  }

  /** The second loop of `addValuesToSeriesEntity`: a new values entity per group from index p on. */
  method AppendValuesEntities(series: SeriesEntity, groups: seq<Values>, p: nat)
    requires p < |groups|
    modifies series`dendroEntities, series`tridasValues
    ensures series.dendroEntities == old(series.dendroEntities) + Wrapped(Surplus(groups, p))
    ensures series.tridasValues == old(series.tridasValues) + Surplus(groups, p)
  {
    for i := p to |groups|
      invariant series.dendroEntities == old(series.dendroEntities) + Wrapped(groups[p..i])
      invariant series.tridasValues == old(series.tridasValues) + groups[p..i]
    {
      assert groups[p..i + 1] == groups[p..i] + [groups[i]];
      assert groups[p..i + 1][..i - p] == groups[p..i];
      series.dendroEntities := series.dendroEntities + [ValuesEntity(groups[i])];
      series.tridasValues := series.tridasValues + [groups[i]];
    }
    assert groups[p..|groups|] == Surplus(groups, p);
  }

  /**
   * `addDataToMeasurementSeriesEntity` / `addDataToDerivedSeriesEntity`: the
   * merge, skipped when the file gave no groups for this kind of series.
   */
  method AddDataToSeriesEntity(series: SeriesEntity, groups: seq<Values>)
    requires DistinctValues(series.dendroEntities)
    requires forall i :: 0 <= i < |groups| ==> groups[i] !in ValuesOf(series.dendroEntities)
    modifies series`dendroEntities, series`tridasValues, ValuesOf(series.dendroEntities)
    ensures var ph := old(EmptyValues(series.dendroEntities));
      forall i :: 0 <= i < |ph| && i < |groups| ==> ph[i].readings == groups[i].readings
    ensures var ph := old(EmptyValues(series.dendroEntities));
      forall i :: |groups| <= i < |ph| ==> ph[i].readings == []
    ensures var ph := old(EmptyValues(series.dendroEntities));
      forall i :: 0 <= i < |ph| ==> ph[i].variable == old(ph[i].variable) && ph[i].unit == old(ph[i].unit)
    ensures series.dendroEntities
      == old(series.dendroEntities) + Wrapped(Surplus(groups, |old(EmptyValues(series.dendroEntities))|))
    ensures series.tridasValues == old(series.tridasValues) + Surplus(groups, |old(EmptyValues(series.dendroEntities))|)
    ensures groups == [] ==> unchanged(series) && unchanged(ValuesOf(old(series.dendroEntities)))
    ensures forall i :: 0 <= i < |groups| ==> groups[i].readings == old(groups[i].readings)
  {
    if groups == [] {
      assert Surplus(groups, |EmptyValues(series.dendroEntities)|) == [];
      return;
    }
    AddValuesToSeriesEntity(series, groups);
  }

  // ----- the data-file scan -----

  /** A value group as the raw-file parser reads it from a measurement file. */
  datatype ValuesGroup = ValuesGroup(readings: seq<string>, variable: Option<string>, unit: Option<string>)

  /** `DccdTreeRingData`: the groups for measurement series and those for derived series. */
  datatype TreeRingData = TreeRingData(measurementValues: seq<ValuesGroup>, derivedValues: seq<ValuesGroup>)

  datatype SeriesKind = MeasurementSeries | DerivedSeries

  /** `getTridasValuesForMeasurementSeries` / `getTridasValuesForDerivedSeries`. */
  function GroupsFor(data: TreeRingData, kind: SeriesKind): seq<ValuesGroup>
  {
    match kind
    case MeasurementSeries => data.measurementValues
    case DerivedSeries => data.derivedValues
  }

  /** A generic field that refers to a raw data file: name and value set, and the name an indicator. */
  predicate IsDataFileReference(f: GenericField, isIndicator: string -> bool)
  {
    f.name.Some? && f.value.Some? && isIndicator(f.name.value)
  }

  /** The position of the first data-file reference among the fields, if any. */
  function FirstReference(fields: seq<GenericField>, isIndicator: string -> bool): (k: Option<nat>)
    ensures k.Some? ==> k.value < |fields| && IsDataFileReference(fields[k.value], isIndicator)
    ensures k.Some? ==> forall j :: 0 <= j < k.value ==> !IsDataFileReference(fields[j], isIndicator)
    ensures k.None? <==> forall j :: 0 <= j < |fields| ==> !IsDataFileReference(fields[j], isIndicator)
  {
    if fields == [] then None
    else if IsDataFileReference(fields[0], isIndicator) then Some(0)
    else match FirstReference(fields[1..], isIndicator)
      case None => None
      case Some(k) => Some(k + 1)
  }

  /** What the scan of one series comes to. */
  datatype Lookup = NoReference | Aborted(error: ImportError) | Found(field: nat, file: Entry, data: TreeRingData)

  /**
   * The scan of one series: the first data-file reference is looked up in the
   * values folder, ignoring case, and the file found is parsed in the
   * bundle's values format.
   */
  function LookupDataFile(fields: seq<GenericField>, valuesFolder: Option<Entry>, format: string,
                          isIndicator: string -> bool, load: (Entry, string) -> Option<TreeRingData>): Lookup
  {
    match FirstReference(fields, isIndicator)
    case None => NoReference
    case Some(k) =>
      var fileName := fields[k].value.value;
      if valuesFolder.None? then Aborted(ValuesFolderMissing)
      else match FindFileNoCase(valuesFolder.value.listing, fileName)
        case None => Aborted(DataFileNotFound(fileName))
        case Some(file) =>
          match load(file, format)
          case None => Aborted(LoadFailed(file.name))
          case Some(data) => Found(k, file, data)
  }

  /**
   * What a lookup comes to: nothing without a reference, a missing values
   * folder only with a reference and no folder, and a found file is a
   * regular file of the values folder whose name matches the reference
   * ignoring case and which the parser loads.
   */
  lemma LookupDataFileCases(fields: seq<GenericField>, valuesFolder: Option<Entry>, format: string,
                            isIndicator: string -> bool, load: (Entry, string) -> Option<TreeRingData>)
    ensures var l := LookupDataFile(fields, valuesFolder, format, isIndicator, load);
      && (l.NoReference? <==> FirstReference(fields, isIndicator).None?)
      && (l == Aborted(ValuesFolderMissing) <==> FirstReference(fields, isIndicator).Some? && valuesFolder.None?)
      && (l.Found? ==>
            && FirstReference(fields, isIndicator) == Some(l.field)
            && valuesFolder.Some? && l.file in valuesFolder.value.listing && l.file.kind == RegularFile
            && EqualsIgnoreCase(l.file.name, fields[l.field].value.value)
            && load(l.file, format) == Some(l.data))
  {
  }

  /** The field at `k` renamed to the "uploaded" marker, its value kept. */
  function Uploaded(fields: seq<GenericField>, k: nat, uploadedName: string): (r: seq<GenericField>)
    requires k < |fields|
    ensures |r| == |fields| && r[k] == GenericField(Some(uploadedName), fields[k].value)
    ensures forall j :: 0 <= j < |fields| && j != k ==> r[j] == fields[j]
  {
    fields[k := GenericField(Some(uploadedName), fields[k].value)]
  }

  /** The fields of a series after a successful scan. */
  function Scanned(fields: seq<GenericField>, isIndicator: string -> bool, uploadedName: string): seq<GenericField>
  {
    match FirstReference(fields, isIndicator)
    case None => fields
    case Some(k) => Uploaded(fields, k, uploadedName)
  }

  /** The raw-file parser's groups as fresh `TridasValues` objects. */
  method NewValuesList(groups: seq<ValuesGroup>) returns (vs: seq<Values>)
    ensures |vs| == |groups|
    ensures forall i :: 0 <= i < |vs| ==> fresh(vs[i])
    ensures forall i :: 0 <= i < |vs| ==>
      vs[i].readings == groups[i].readings && vs[i].variable == groups[i].variable && vs[i].unit == groups[i].unit
  {
    vs := [];
    for i := 0 to |groups|
      invariant |vs| == i
      invariant forall j :: 0 <= j < i ==> fresh(vs[j])
      invariant forall j :: 0 <= j < i ==>
        vs[j].readings == groups[j].readings && vs[j].variable == groups[j].variable && vs[j].unit == groups[j].unit
    {
      var v := new Values(groups[i].readings, groups[i].variable, groups[i].unit);
      vs := vs + [v];
    }
  }

  // ----- the project being imported -----

  /** The archive's `Project` as the importer sees it. */
  class DccdProject {
    const sid: string
    var fileName: string
    var ownerId: string
    var tridasLanguage: string
    var originalFiles: seq<Entry>
    var associatedFiles: seq<string>
    const measurementSeriesEntities: seq<SeriesEntity>
    const derivedSeriesEntities: seq<SeriesEntity>

    constructor (sid: string, measurementSeriesEntities: seq<SeriesEntity>, derivedSeriesEntities: seq<SeriesEntity>)
      ensures this.sid == sid && fileName == [] && ownerId == [] && tridasLanguage == []
      ensures originalFiles == [] && associatedFiles == []
      ensures this.measurementSeriesEntities == measurementSeriesEntities
      ensures this.derivedSeriesEntities == derivedSeriesEntities
    {
      this.sid := sid;
      fileName := [];
      ownerId := [];
      tridasLanguage := [];
      originalFiles := [];
      associatedFiles := [];
      this.measurementSeriesEntities := measurementSeriesEntities;
      this.derivedSeriesEntities := derivedSeriesEntities;
    }

    /** Every series entity is a separate object and holds each value block once. */
    predicate SeriesWellFormed()
      reads measurementSeriesEntities, derivedSeriesEntities
    {
      && SeparateSeries(measurementSeriesEntities + derivedSeriesEntities)
      && (forall i :: 0 <= i < |measurementSeriesEntities| ==> DistinctValues(measurementSeriesEntities[i].dendroEntities))
      && (forall i :: 0 <= i < |derivedSeriesEntities| ==> DistinctValues(derivedSeriesEntities[i].dendroEntities))
    }

    /**
     * `valueBlocks` holds the value blocks of every series entity: what an
     * import may change besides the project and its series entities.
     */
    predicate ValueBlocksWithin(valueBlocks: set<Values>)
      reads measurementSeriesEntities, derivedSeriesEntities
    {
      && (forall i :: 0 <= i < |measurementSeriesEntities| ==> ValuesOf(measurementSeriesEntities[i].dendroEntities) <= valueBlocks)
      && (forall i :: 0 <= i < |derivedSeriesEntities| ==> ValuesOf(derivedSeriesEntities[i].dendroEntities) <= valueBlocks)
    }
  }

  predicate SeparateSeries(list: seq<SeriesEntity>)
  {
    forall i, j :: 0 <= i < j < |list| ==> list[i] != list[j]
  }

  /** The generic fields of each series. */
  function FieldLists(list: seq<SeriesEntity>): (fl: seq<seq<GenericField>>)
    reads list
    ensures |fl| == |list|
  {
    if list == [] then [] else FieldLists(list[..|list| - 1]) + [list[|list| - 1].genericFields]
  }

  /** Each entry of `FieldLists(list)` is the fields of the series at the same position. */
  lemma {:induction false} FieldListsAt(list: seq<SeriesEntity>)
    ensures forall i :: 0 <= i < |list| ==> FieldLists(list)[i] == list[i].genericFields
  {
    if list != [] {
      FieldListsAt(list[..|list| - 1]);
    }
  }

  /** The lookup the scan of each series makes. */
  function Lookups(fieldLists: seq<seq<GenericField>>, valuesFolder: Option<Entry>, format: string,
                   isIndicator: string -> bool, load: (Entry, string) -> Option<TreeRingData>): (ls: seq<Lookup>)
    ensures |ls| == |fieldLists|
  {
    if fieldLists == [] then []
    else
      Lookups(fieldLists[..|fieldLists| - 1], valuesFolder, format, isIndicator, load)
      + [LookupDataFile(fieldLists[|fieldLists| - 1], valuesFolder, format, isIndicator, load)]
  }

  /** The `i`-th lookup is the scan of the `i`-th series. */
  lemma {:induction false} LookupsAt(fieldLists: seq<seq<GenericField>>, i: nat, valuesFolder: Option<Entry>, format: string,
                                     isIndicator: string -> bool, load: (Entry, string) -> Option<TreeRingData>)
    requires i < |fieldLists|
    ensures Lookups(fieldLists, valuesFolder, format, isIndicator, load)[i]
      == LookupDataFile(fieldLists[i], valuesFolder, format, isIndicator, load)
  {
    if i < |fieldLists| - 1 {
      LookupsAt(fieldLists[..|fieldLists| - 1], i, valuesFolder, format, isIndicator, load);
    }
  }

  /** The error of the first of the first `n` lookups that aborts, if any. */
  function FirstError(lookups: seq<Lookup>, n: nat): Option<ImportError>
    requires n <= |lookups|
  {
    if n == 0 then None
    else match FirstError(lookups, n - 1)
      case Some(e) => Some(e)
      case None => if lookups[n - 1].Aborted? then Some(lookups[n - 1].error) else None
  }

  /** The raw data files the first `n` lookups find, in order. */
  function FilesFound(lookups: seq<Lookup>, n: nat): seq<Entry>
    requires n <= |lookups|
  {
    if n == 0 then [] else FilesFound(lookups, n - 1) + FileFound(lookups[n - 1])
  }

  function FileFound(lookup: Lookup): seq<Entry>
  {
    if lookup.Found? then [lookup.file] else []
  }

  /**
   * The body of the loops of `importValueFiles` for one series: the first
   * data-file reference, if any, is imported by `ImportDataFile`.
   */
  method ImportSeriesValues(project: DccdProject, series: SeriesEntity, kind: SeriesKind, valuesFolder: Option<Entry>,
                            format: string, uploadedName: string, isIndicator: string -> bool,
                            load: (Entry, string) -> Option<TreeRingData>)
    returns (lookup: Lookup)
    requires DistinctValues(series.dendroEntities)
    modifies project`originalFiles, series, ValuesOf(series.dendroEntities)
    ensures lookup == LookupDataFile(old(series.genericFields), valuesFolder, format, isIndicator, load)
    ensures !lookup.Found? ==> unchanged(series) && project.originalFiles == old(project.originalFiles)
    ensures lookup.Found? ==>
      && series.genericFields == Uploaded(old(series.genericFields), lookup.field, uploadedName)
      && project.originalFiles == old(project.originalFiles) + [lookup.file]
  {
    var fields := series.genericFields;
    var reference := None;
    var i := 0;
    while i < |fields|
      invariant 0 <= i <= |fields|
      invariant forall j :: 0 <= j < i ==> !IsDataFileReference(fields[j], isIndicator)
    {
      var field := fields[i];
      if field.value.Some? && field.name.Some? && isIndicator(field.name.value) {
        reference := Some(i);
        break;
      }
      i := i + 1;
    }
    if reference.None? {
      return NoReference;
    }
    assert FirstReference(fields, isIndicator) == Some(i);
    lookup := ImportDataFile(project, series, kind, i, valuesFolder, format, uploadedName, load);
  }

  /**
   * The data file the `k`-th field refers to, imported into `series`: it is
   * looked up in the values folder and parsed, its groups are merged into
   * the series as `addValuesToSeriesEntity` does, it is recorded as an
   * original file, and the field is renamed to the "uploaded" marker.
   */
  method ImportDataFile(project: DccdProject, series: SeriesEntity, kind: SeriesKind, k: nat, valuesFolder: Option<Entry>,
                        format: string, uploadedName: string, load: (Entry, string) -> Option<TreeRingData>)
    returns (lookup: Lookup)
    requires k < |series.genericFields| && series.genericFields[k].value.Some?
    requires DistinctValues(series.dendroEntities)
    modifies project`originalFiles, series, ValuesOf(series.dendroEntities)
    ensures var fileName := old(series.genericFields[k].value.value);
      lookup == if valuesFolder.None? then Aborted(ValuesFolderMissing)
        else match FindFileNoCase(valuesFolder.value.listing, fileName)
          case None => Aborted(DataFileNotFound(fileName))
          case Some(file) =>
            match load(file, format)
            case None => Aborted(LoadFailed(file.name))
            case Some(data) => Found(k, file, data)
    ensures !lookup.Found? ==>
      unchanged(series) && project.originalFiles == old(project.originalFiles) && unchanged(ValuesOf(old(series.dendroEntities)))
    ensures lookup.Found? ==>
      && series.genericFields == Uploaded(old(series.genericFields), k, uploadedName)
      && project.originalFiles == old(project.originalFiles) + [lookup.file]
  {
    var fileName := series.genericFields[k].value.value;
    if valuesFolder.None? {
      return Aborted(ValuesFolderMissing);
    }
    var file := FindFileNoCase(valuesFolder.value.listing, fileName);
    if file.None? {
      return Aborted(DataFileNotFound(fileName));
    }
    var data := load(file.value, format);
    if data.None? {
      return Aborted(LoadFailed(file.value.name));
    }
    var tridasValuesList := NewValuesList(GroupsFor(data.value, kind));
    AddDataToSeriesEntity(series, tridasValuesList);
    project.originalFiles := project.originalFiles + [file.value];
    series.genericFields := Uploaded(series.genericFields, k, uploadedName);
    lookup := Found(k, file.value, data.value);
  }

  /**
   * One loop of `importValueFiles` over a list of series entities: the scan
   * stops at the first error; when there is none, every series has its first
   * data-file reference renamed and the files found are appended to the
   * original files, in series order.
   */
  method ImportSeriesList(project: DccdProject, list: seq<SeriesEntity>, kind: SeriesKind, valuesFolder: Option<Entry>,
                          format: string, uploadedName: string, isIndicator: string -> bool,
                          load: (Entry, string) -> Option<TreeRingData>, ghost valueBlocks: set<Values>)
    returns (err: Option<ImportError>)
    requires SeparateSeries(list)
    requires forall i :: 0 <= i < |list| ==> DistinctValues(list[i].dendroEntities)
    requires forall j :: 0 <= j < |list| ==> ValuesOf(list[j].dendroEntities) <= valueBlocks
    modifies project`originalFiles, list, valueBlocks
    ensures err == FirstError(Lookups(old(FieldLists(list)), valuesFolder, format, isIndicator, load), |list|)
    ensures err.None? ==>
      forall i :: 0 <= i < |list| ==> list[i].genericFields == Scanned(old(list[i].genericFields), isIndicator, uploadedName)
    ensures err.None? ==>
      project.originalFiles
      == old(project.originalFiles) + FilesFound(Lookups(old(FieldLists(list)), valuesFolder, format, isIndicator, load), |list|)
  {
    ghost var fieldLists := FieldLists(list);
    ghost var dendroLists := DendroLists(list);
    FieldListsAt(list);
    DendroListsAt(list);
    ghost var lookups := Lookups(fieldLists, valuesFolder, format, isIndicator, load);
    ghost var start := project.originalFiles;
    err := None;
    var i := 0;
    while i < |list| && err.None?
      invariant i <= |list|
      invariant err == FirstError(lookups, i)
      invariant err.None? ==>
        ScanState(project, list, i, fieldLists, dendroLists, lookups, start, isIndicator, uploadedName)
    {
      var lookup := ScanSeries(project, list, i, list[i], fieldLists, dendroLists, lookups, start, kind,
                               valuesFolder, format, uploadedName, isIndicator, load, valueBlocks);
      if lookup.Aborted? {
        err := Some(lookup.error);
      }
      i := i + 1;
    }
    if err.Some? {
      FirstErrorOfPrefix(lookups, i);
    }
  }

  /**
   * Where the scan of a list stands before its `i`-th series: no error so
   * far, the series before `i` scanned, the others as they were, and the
   * files found so far appended to `start`.
   */
  ghost predicate ScanState(project: DccdProject, list: seq<SeriesEntity>, i: nat, fieldLists: seq<seq<GenericField>>,
                            dendroLists: seq<seq<SubEntity>>, lookups: seq<Lookup>, start: seq<Entry>,
                            isIndicator: string -> bool, uploadedName: string)
    reads project, list
  {
    && i <= |list| == |fieldLists| == |dendroLists| == |lookups|
    && FirstError(lookups, i) == None
    && (forall j :: 0 <= j < i ==> list[j].genericFields == Scanned(fieldLists[j], isIndicator, uploadedName))
    && (forall j :: i <= j < |list| ==> list[j].genericFields == fieldLists[j] && list[j].dendroEntities == dendroLists[j])
    && project.originalFiles == start + FilesFound(lookups, i)
  }

  /**
   * The `i`-th series of a list scanned, as one step of the scan of the whole
   * list (`lookups`); the other series of the list are left as they are.
   */
  method ScanSeries(project: DccdProject, list: seq<SeriesEntity>, i: nat, series: SeriesEntity,
                    ghost fieldLists: seq<seq<GenericField>>, ghost dendroLists: seq<seq<SubEntity>>,
                    ghost lookups: seq<Lookup>, ghost start: seq<Entry>, kind: SeriesKind,
                    valuesFolder: Option<Entry>, format: string, uploadedName: string, isIndicator: string -> bool,
                    load: (Entry, string) -> Option<TreeRingData>, ghost valueBlocks: set<Values>)
    returns (lookup: Lookup)
    requires SeparateSeries(list) && i < |list| && series == list[i]
    requires lookups == Lookups(fieldLists, valuesFolder, format, isIndicator, load)
    requires ScanState(project, list, i, fieldLists, dendroLists, lookups, start, isIndicator, uploadedName)
    requires DistinctValues(dendroLists[i]) && ValuesOf(dendroLists[i]) <= valueBlocks
    modifies project`originalFiles, series, valueBlocks
    ensures lookup.Aborted? <==> FirstError(lookups, i + 1).Some?
    ensures lookup.Aborted? ==> FirstError(lookups, i + 1) == Some(lookup.error)
    ensures !lookup.Aborted? ==>
      ScanState(project, list, i + 1, fieldLists, dendroLists, lookups, start, isIndicator, uploadedName)
  {
    LookupsAt(fieldLists, i, valuesFolder, format, isIndicator, load);
    lookup := ImportSeriesValues(project, series, kind, valuesFolder, format, uploadedName, isIndicator, load);
    forall j | 0 <= j < |list| && j != i
      ensures list[j].genericFields == old(list[j].genericFields) && list[j].dendroEntities == old(list[j].dendroEntities)
    {
      assert list[j] != series;
    }
    if !lookup.Aborted? {
      ScannedFields(fieldLists[i], lookup, valuesFolder, format, isIndicator, load, uploadedName);
      AppendAssociative(start, FilesFound(lookups, i), FileFound(lookup));
    }
  }

  /** The sub-entities of each series. */
  function DendroLists(list: seq<SeriesEntity>): (dl: seq<seq<SubEntity>>)
    reads list
    ensures |dl| == |list|
  {
    if list == [] then [] else DendroLists(list[..|list| - 1]) + [list[|list| - 1].dendroEntities]
  }

  /** Each entry of `DendroLists(list)` is the sub-entities of the series at the same position. */
  lemma {:induction false} DendroListsAt(list: seq<SeriesEntity>)
    ensures forall i :: 0 <= i < |list| ==> DendroLists(list)[i] == list[i].dendroEntities
  {
    if list != [] {
      DendroListsAt(list[..|list| - 1]);
    }
  }

  /** The fields a successful lookup leaves are the scanned fields. */
  lemma ScannedFields(fields: seq<GenericField>, lookup: Lookup, valuesFolder: Option<Entry>, format: string,
                      isIndicator: string -> bool, load: (Entry, string) -> Option<TreeRingData>, uploadedName: string)
    requires lookup == LookupDataFile(fields, valuesFolder, format, isIndicator, load) && !lookup.Aborted?
    ensures lookup.NoReference? ==> Scanned(fields, isIndicator, uploadedName) == fields
    ensures lookup.Found? ==>
      lookup.field < |fields| && Scanned(fields, isIndicator, uploadedName) == Uploaded(fields, lookup.field, uploadedName)
  {
  }

  /** An error among the first `n` lookups is the first error of them all. */
  lemma {:induction false} FirstErrorOfPrefix(lookups: seq<Lookup>, n: nat)
    requires n <= |lookups| && FirstError(lookups, n).Some?
    ensures FirstError(lookups, |lookups|) == FirstError(lookups, n)
    decreases |lookups| - n
  {
    if n < |lookups| {
      FirstErrorOfPrefix(lookups, n + 1);
    }
  }

  /** Series entities of two separate lists are separate within each list and from each other. */
  lemma SeparateParts(ms: seq<SeriesEntity>, ds: seq<SeriesEntity>)
    requires SeparateSeries(ms + ds)
    ensures SeparateSeries(ms) && SeparateSeries(ds)
    ensures forall a, b :: 0 <= a < |ms| && 0 <= b < |ds| ==> ms[a] != ds[b]
  {
    forall a, b | 0 <= a < |ms| && 0 <= b < |ds|
      ensures ms[a] != ds[b]
    {
      assert (ms + ds)[a] == ms[a] && (ms + ds)[|ms| + b] == ds[b];
    }
    forall a, b | 0 <= a < b < |ms|
      ensures ms[a] != ms[b]
    {
      assert (ms + ds)[a] == ms[a] && (ms + ds)[b] == ms[b];
    }
    forall a, b | 0 <= a < b < |ds|
      ensures ds[a] != ds[b]
    {
      assert (ms + ds)[|ms| + a] == ds[a] && (ms + ds)[|ms| + b] == ds[b];
    }
  }

  /** The error `importValueFiles` stops at, if any: the measurement series are scanned first. */
  function ValueFilesError(msFields: seq<seq<GenericField>>, dsFields: seq<seq<GenericField>>, valuesFolder: Option<Entry>,
                           format: string, isIndicator: string -> bool, load: (Entry, string) -> Option<TreeRingData>)
    : Option<ImportError>
  {
    match FirstError(Lookups(msFields, valuesFolder, format, isIndicator, load), |msFields|)
    case Some(e) => Some(e)
    case None => FirstError(Lookups(dsFields, valuesFolder, format, isIndicator, load), |dsFields|)
  }

  /** The raw data files a successful `importValueFiles` records, measurement series first. */
  function ValueFilesFound(msFields: seq<seq<GenericField>>, dsFields: seq<seq<GenericField>>, valuesFolder: Option<Entry>,
                           format: string, isIndicator: string -> bool, load: (Entry, string) -> Option<TreeRingData>)
    : seq<Entry>
  {
    FilesFound(Lookups(msFields, valuesFolder, format, isIndicator, load), |msFields|)
    + FilesFound(Lookups(dsFields, valuesFolder, format, isIndicator, load), |dsFields|)
  }

  /**
   * `importValueFiles(project, folder, formatString)`: the measurement series
   * are scanned, then the derived series; the first error aborts the import.
   * Without an error every series has its first data-file reference renamed
   * and the files found are appended to the original files, measurement
   * series first.
   */
  method ImportValueFiles(project: DccdProject, valuesFolder: Option<Entry>, format: string, uploadedName: string,
                          isIndicator: string -> bool, load: (Entry, string) -> Option<TreeRingData>,
                          ghost valueBlocks: set<Values>)
    returns (err: Option<ImportError>)
    requires project.SeriesWellFormed() && project.ValueBlocksWithin(valueBlocks)
    modifies project`originalFiles, project.measurementSeriesEntities, project.derivedSeriesEntities, valueBlocks
    ensures err == ValueFilesError(old(FieldLists(project.measurementSeriesEntities)),
                                   old(FieldLists(project.derivedSeriesEntities)), valuesFolder, format, isIndicator, load)
    ensures err.None? ==>
      var ms := project.measurementSeriesEntities;
      forall i :: 0 <= i < |ms| ==> ms[i].genericFields == Scanned(old(ms[i].genericFields), isIndicator, uploadedName)
    ensures err.None? ==>
      var ds := project.derivedSeriesEntities;
      forall i :: 0 <= i < |ds| ==> ds[i].genericFields == Scanned(old(ds[i].genericFields), isIndicator, uploadedName)
    ensures err.None? ==>
      project.originalFiles == old(project.originalFiles)
        + ValueFilesFound(old(FieldLists(project.measurementSeriesEntities)), old(FieldLists(project.derivedSeriesEntities)),
                          valuesFolder, format, isIndicator, load)
  {
    var ms := project.measurementSeriesEntities;
    var ds := project.derivedSeriesEntities;
    SeparateParts(ms, ds);
    ghost var dsFields := FieldLists(ds);
    err := ImportSeriesList(project, ms, MeasurementSeries, valuesFolder, format, uploadedName, isIndicator, load,
                            valueBlocks);
    if err.Some? {
      return;
    }
    assert FieldLists(ds) == dsFields;
    err := ImportSeriesList(project, ds, DerivedSeries, valuesFolder, format, uploadedName, isIndicator, load,
                            valueBlocks);
    if err.None? {
      AppendAssociative(old(project.originalFiles),
                        FilesFound(Lookups(old(FieldLists(ms)), valuesFolder, format, isIndicator, load), |ms|),
                        FilesFound(Lookups(dsFields, valuesFolder, format, isIndicator, load), |ds|));
      assert project.originalFiles == old(project.originalFiles)
        + ValueFilesFound(old(FieldLists(ms)), dsFields, valuesFolder, format, isIndicator, load);
    }
  }

  // ----- the TRiDaS file, the associated files and the whole import -----

  /** Whether `code` is the two letters given. */
  predicate IsCode(code: string, first: char, second: char)
  {
    |code| == 2 && code[0] == first && code[1] == second
  }

  /**
   * The language code of `new Locale(language)`: lower-cased (ASCII), with
   * the three codes ISO 639 renamed mapped back to their old forms
   * ("he" to "iw", "yi" to "ji", "id" to "in"), as `Locale` does before
   * Java 17.
   */
  function LocaleLanguage(language: string): (r: string)
    ensures |r| == |language|
  {
    if |language| == 2 then OldIsoCode([FoldCase(language[0]), FoldCase(language[1])]) else LowerCase(language)
  }

  /** The locale language is the lower-cased language with the renamed codes mapped back. */
  lemma LocaleLanguageIsOldIsoCode(language: string)
    ensures LocaleLanguage(language) == OldIsoCode(LowerCase(language))
  {
    LowerCaseAt(language);
    if |language| == 2 {
      assert LowerCase(language) == [FoldCase(language[0]), FoldCase(language[1])];
    }
  }

  /** The code `Locale` keeps for a lower-case language code: the old form of the three renamed ones. */
  function OldIsoCode(code: string): (r: string)
    ensures |r| == |code|
  {
    if IsCode(code, 'h', 'e') then "iw"
    else if IsCode(code, 'y', 'i') then "ji"
    else if IsCode(code, 'i', 'd') then "in"
    else code
  }

  /** A locale language holds no upper-case letter. */
  lemma LocaleLanguageIsLowerCase(language: string)
    ensures var r := LocaleLanguage(language); forall i :: 0 <= i < |r| ==> !('A' <= r[i] <= 'Z')
  {
    LocaleLanguageIsOldIsoCode(language);
    LowerCaseAt(language);
  }

  /** Languages written alike but for case give the same locale language. */
  lemma LocaleLanguageIgnoresCase(a: string, b: string)
    requires EqualsIgnoreCase(a, b)
    ensures LocaleLanguage(a) == LocaleLanguage(b)
  {
    LocaleLanguageIsOldIsoCode(a);
    LocaleLanguageIsOldIsoCode(b);
    LowerCaseAt(a);
    LowerCaseAt(b);
    assert LowerCase(a) == LowerCase(b);
  }

  /** A locale language is its own locale language: the mapping is a normal form. */
  lemma {:induction false} LocaleLanguageIdempotent(language: string)
    ensures LocaleLanguage(LocaleLanguage(language)) == LocaleLanguage(language)
  {
    var r := LocaleLanguage(language);
    LocaleLanguageIsLowerCase(language);
    LocaleLanguageIsOldIsoCode(r);
    LowerCaseAt(r);
    assert LowerCase(r) == r;
  }

  /**
   * `importTridasFile(tridasFile, tridasLanguage, userId)`: `parsed` is what
   * the TRiDaS parser made of the file, null when it failed.  The project
   * records the file's name, its owner and the language of the locale it
   * is given, and the file itself as an original file.
   */
  method ImportTridasFile(tridasFile: Entry, tridasLanguage: string, userId: string, parsed: DccdProject?)
    returns (r: Result<DccdProject, ImportError>)
    modifies parsed
    ensures parsed == null <==> r.Failure?
    ensures parsed == null ==> r.error == TridasLoadFailed
    ensures parsed != null ==>
      && r.value == parsed
      && parsed.fileName == tridasFile.name && parsed.ownerId == userId && parsed.tridasLanguage == tridasLanguage
      && parsed.originalFiles == old(parsed.originalFiles) + [tridasFile]
      && parsed.associatedFiles == old(parsed.associatedFiles)
  {
    if parsed == null {
      return Failure(TridasLoadFailed);
    }
    parsed.fileName := tridasFile.name;
    parsed.ownerId := userId;
    parsed.tridasLanguage := tridasLanguage;
    parsed.originalFiles := parsed.originalFiles + [tridasFile];
    r := Success(parsed);
  }

  const PATH_SEPARATOR: char := '/'

  /** The path of each associated file: the folder's path, the separator and the name. */
  function AssociatedPaths(folderPath: string, names: seq<string>): (paths: seq<string>)
    ensures |paths| == |names|
    ensures forall i :: 0 <= i < |names| ==> paths[i] == folderPath + [PATH_SEPARATOR] + names[i]
  {
    if names == [] then []
    else AssociatedPaths(folderPath, names[..|names| - 1]) + [folderPath + [PATH_SEPARATOR] + names[|names| - 1]]
  }

  /** Each name is read back from its path after the folder's path and the separator. */
  lemma AssociatedPathsRecoverNames(folderPath: string, names: seq<string>)
    ensures forall i :: 0 <= i < |names| ==>
      var path := AssociatedPaths(folderPath, names)[i];
      && path[..|folderPath|] == folderPath && path[|folderPath|] == PATH_SEPARATOR
      && path[|folderPath| + 1..] == names[i]
  {
  }

  /**
   * Whether the associated folder holds a regular file of that name, the one
   * `addAssociatedFile` can read; a name the folder lacks, or one naming a
   * sub-directory, makes it throw an IOException.
   */
  predicate HasRegularFile(folder: Entry, name: string)
  {
    exists j :: 0 <= j < |folder.listing| && folder.listing[j].name == name && folder.listing[j].kind == RegularFile
  }

  /** How many of the names, from the front, the folder holds as regular files: the position of the first one it lacks. */
  function FirstMissing(folder: Entry, names: seq<string>): (k: nat)
    ensures k <= |names|
    ensures forall i :: 0 <= i < k ==> HasRegularFile(folder, names[i])
    ensures k < |names| ==> !HasRegularFile(folder, names[k])
  {
    if names == [] || !HasRegularFile(folder, names[0]) then 0 else 1 + FirstMissing(folder, names[1..])
  }

  /** Some name is missing exactly when the scan from the front stops before the end. */
  lemma FirstMissingIffSomeMissing(folder: Entry, names: seq<string>)
    ensures FirstMissing(folder, names) < |names| <==> exists i :: 0 <= i < |names| && !HasRegularFile(folder, names[i])
  {
  }

  /**
   * `importAssociatedFiles(project, folder)`: each associated-file name the
   * project's TRiDaS mentions (`names`) is added, in order, as the file
   * `folderPath` + separator + name, `folderPath` being the path of
   * `folder`.  Without that folder the first name dereferences null; a name
   * the folder does not hold as a regular file makes `addAssociatedFile`
   * throw, after the names before it were added; without names nothing
   * happens, folder or not.
   */
  method ImportAssociatedFiles(project: DccdProject, folder: Option<Entry>, folderPath: string, names: seq<string>)
    returns (err: Option<ImportError>)
    modifies project`associatedFiles
    ensures err.Some? <==>
      names != [] && (folder.None? || exists i :: 0 <= i < |names| && !HasRegularFile(folder.value, names[i]))
    ensures folder.None? ==>
      project.associatedFiles == old(project.associatedFiles) && (names != [] ==> err == Some(AssociatedFolderMissing))
    ensures folder.Some? ==>
      var k := FirstMissing(folder.value, names);
      && project.associatedFiles == old(project.associatedFiles) + AssociatedPaths(folderPath, names[..k])
      && (k < |names| ==> err == Some(AssociatedFileMissing(names[k])))
  {
    if folder.Some? {
      FirstMissingIffSomeMissing(folder.value, names);
    }
    err := None;
    for i := 0 to |names|
      invariant folder.Some? ==>
        && i <= FirstMissing(folder.value, names)
        && project.associatedFiles == old(project.associatedFiles) + AssociatedPaths(folderPath, names[..i])
      invariant folder.None? ==> i == 0 && project.associatedFiles == old(project.associatedFiles)
    {
      if folder.None? {
        return Some(AssociatedFolderMissing);
      }
      if !HasRegularFile(folder.value, names[i]) {
        return Some(AssociatedFileMissing(names[i]));
      }
      assert names[..i + 1][..i] == names[..i];
      project.associatedFiles := project.associatedFiles + [folderPath + [PATH_SEPARATOR] + names[i]];
    }
    if folder.Some? {
      assert names[..|names|] == names;
    }
  }

  const ASSOCIATED_FOLDER_NAME: string := "associated"
  const VALUES_FOLDER_NAME: string := "values"

  /**
   * The loop of `importProject` over the sub-directories: the last one named
   * exactly "associated" and the last one named exactly "values".
   */
  method FindImportFolders(listing: seq<Entry>) returns (associatedFolder: Option<Entry>, valuesFolder: Option<Entry>)
    ensures associatedFolder == LastNamedIn(GetFolders(listing), ASSOCIATED_FOLDER_NAME)
    ensures valuesFolder == LastNamedIn(GetFolders(listing), VALUES_FOLDER_NAME)
  {
    var subDirs := GetFolders(listing);
    associatedFolder := None;
    valuesFolder := None;
    for i := 0 to |subDirs|
      invariant associatedFolder == LastNamedIn(subDirs[..i], ASSOCIATED_FOLDER_NAME)
      invariant valuesFolder == LastNamedIn(subDirs[..i], VALUES_FOLDER_NAME)
    {
      assert subDirs[..i + 1][..i] == subDirs[..i];
      if subDirs[i].name == ASSOCIATED_FOLDER_NAME {
        associatedFolder := Some(subDirs[i]);
      } else if subDirs[i].name == VALUES_FOLDER_NAME {
        valuesFolder := Some(subDirs[i]);
      }
    }
    assert subDirs[..|subDirs|] == subDirs;
  }

  /** The errors the scan of a series can run into. */
  predicate IsLookupError(e: ImportError)
  {
    e.ValuesFolderMissing? || e.DataFileNotFound? || e.LoadFailed?
  }

  /** The errors of the steps after the TRiDaS file: a failed lookup, a missing associated folder or file, a failed store. */
  predicate IsImportStepError(e: ImportError)
  {
    IsLookupError(e) || e == AssociatedFolderMissing || e.AssociatedFileMissing? || e == StoreFailed
  }

  /** A lookup aborts only for a missing values folder, a missing data file or a file that does not load. */
  lemma LookupErrorKinds(fields: seq<GenericField>, valuesFolder: Option<Entry>, format: string,
                         isIndicator: string -> bool, load: (Entry, string) -> Option<TreeRingData>)
    ensures var l := LookupDataFile(fields, valuesFolder, format, isIndicator, load);
      l.Aborted? ==> IsLookupError(l.error)
  {
  }

  /** `FirstError` is the error of the first lookup that aborts, and there is none exactly when no lookup aborts. */
  lemma {:induction false} FirstErrorIsFirstAbort(lookups: seq<Lookup>, n: nat)
    requires n <= |lookups|
    ensures FirstError(lookups, n).None? <==> forall k :: 0 <= k < n ==> !lookups[k].Aborted?
    ensures FirstError(lookups, n).Some? ==>
      exists k :: 0 <= k < n && lookups[k] == Aborted(FirstError(lookups, n).value)
                  && forall j :: 0 <= j < k ==> !lookups[j].Aborted?
  {
    if n > 0 {
      FirstErrorIsFirstAbort(lookups, n - 1);
    }
  }

  /** `importValueFiles` fails only with the error of a lookup. */
  lemma ValueFilesErrorKinds(msFields: seq<seq<GenericField>>, dsFields: seq<seq<GenericField>>, valuesFolder: Option<Entry>,
                             format: string, isIndicator: string -> bool, load: (Entry, string) -> Option<TreeRingData>)
    ensures var e := ValueFilesError(msFields, dsFields, valuesFolder, format, isIndicator, load);
      e.Some? ==> IsLookupError(e.value)
  {
    var msLookups := Lookups(msFields, valuesFolder, format, isIndicator, load);
    var dsLookups := Lookups(dsFields, valuesFolder, format, isIndicator, load);
    FirstErrorIsFirstAbort(msLookups, |msFields|);
    FirstErrorIsFirstAbort(dsLookups, |dsFields|);
    var e := ValueFilesError(msFields, dsFields, valuesFolder, format, isIndicator, load);
    if FirstError(msLookups, |msFields|).Some? {
      var k :| 0 <= k < |msFields| && msLookups[k] == Aborted(e.value);
      LookupsAt(msFields, k, valuesFolder, format, isIndicator, load);
      LookupErrorKinds(msFields[k], valuesFolder, format, isIndicator, load);
    } else if e.Some? {
      var k :| 0 <= k < |dsFields| && dsLookups[k] == Aborted(e.value);
      LookupsAt(dsFields, k, valuesFolder, format, isIndicator, load);
      LookupErrorKinds(dsFields[k], valuesFolder, format, isIndicator, load);
    }
  }

  /**
   * The steps of `importProject` after the TRiDaS file is parsed: the value
   * files, the associated files and the store, the first failure ending the
   * import; on success the project's id is returned.
   */
  method ImportParsedProject(project: DccdProject, associatedFolder: Option<Entry>, associatedFolderPath: string,
                             valuesFolder: Option<Entry>,
                             format: string, uploadedName: string, isIndicator: string -> bool,
                             load: (Entry, string) -> Option<TreeRingData>, associatedNames: seq<string>, stored: bool,
                             ghost valueBlocks: set<Values>)
    returns (r: Result<string, ImportError>)
    requires project.SeriesWellFormed() && project.ValueBlocksWithin(valueBlocks)
    modifies project`originalFiles, project`associatedFiles
    modifies project.measurementSeriesEntities, project.derivedSeriesEntities, valueBlocks
    ensures var scanError := ValueFilesError(old(FieldLists(project.measurementSeriesEntities)),
                                             old(FieldLists(project.derivedSeriesEntities)),
                                             valuesFolder, format, isIndicator, load);
      r == if scanError.Some? then Failure(scanError.value)
           else if associatedNames != [] && associatedFolder.None? then Failure(AssociatedFolderMissing)
           else if associatedFolder.Some? && FirstMissing(associatedFolder.value, associatedNames) < |associatedNames|
             then Failure(AssociatedFileMissing(associatedNames[FirstMissing(associatedFolder.value, associatedNames)]))
           else if !stored then Failure(StoreFailed)
           else Success(project.sid)
    ensures r.Success? ==>
      project.originalFiles == old(project.originalFiles)
        + ValueFilesFound(old(FieldLists(project.measurementSeriesEntities)), old(FieldLists(project.derivedSeriesEntities)),
                          valuesFolder, format, isIndicator, load)
    ensures r.Success? && associatedFolder.Some? ==>
      project.associatedFiles == old(project.associatedFiles) + AssociatedPaths(associatedFolderPath, associatedNames)
    ensures r.Failure? ==> IsImportStepError(r.error)
    ensures project.fileName == old(project.fileName) && project.ownerId == old(project.ownerId)
    ensures project.tridasLanguage == old(project.tridasLanguage)
  {
    ValueFilesErrorKinds(FieldLists(project.measurementSeriesEntities), FieldLists(project.derivedSeriesEntities),
                         valuesFolder, format, isIndicator, load);
    ghost var header := (project.fileName, project.ownerId, project.tridasLanguage, project.associatedFiles);
    var err := ImportValueFiles(project, valuesFolder, format, uploadedName, isIndicator, load, valueBlocks);
    assert (project.fileName, project.ownerId, project.tridasLanguage, project.associatedFiles) == header;
    if err.Some? {
      r := Failure(err.value);
    } else {
      r := ImportAssociatedFilesAndStore(project, associatedFolder, associatedFolderPath, associatedNames, stored);
    }
  }

  /** The last two steps of `importProject`: the associated files, then the store. */
  method ImportAssociatedFilesAndStore(project: DccdProject, associatedFolder: Option<Entry>, associatedFolderPath: string,
                                       associatedNames: seq<string>, stored: bool)
    returns (r: Result<string, ImportError>)
    modifies project`associatedFiles
    ensures r == if associatedNames != [] && associatedFolder.None? then Failure(AssociatedFolderMissing)
           else if associatedFolder.Some? && FirstMissing(associatedFolder.value, associatedNames) < |associatedNames|
             then Failure(AssociatedFileMissing(associatedNames[FirstMissing(associatedFolder.value, associatedNames)]))
           else if !stored then Failure(StoreFailed)
           else Success(project.sid)
    ensures r.Success? && associatedFolder.Some? ==>
      project.associatedFiles == old(project.associatedFiles) + AssociatedPaths(associatedFolderPath, associatedNames)
  {
    var err := ImportAssociatedFiles(project, associatedFolder, associatedFolderPath, associatedNames);
    if err.Some? {
      r := Failure(err.value);
    } else if !stored {
      r := Failure(StoreFailed);
    } else {
      assert associatedNames[..|associatedNames|] == associatedNames;
      r := Success(project.sid);
    }
  }

  /**
   * `importProject` once its TRiDaS file is chosen: the metadata language
   * becomes a `Locale`, the folders are found, the file is imported
   * (`parsed` is the parser's project, null on failure) and the rest of the
   * import runs on the project.  `projectPath`
   * is the project folder's path; a sub-directory listed in it has that
   * path, the separator and its name as its own path.
   */
  method ImportBundle(projectPath: string, projectListing: seq<Entry>, tridasFile: Entry, language: string,
                      formatString: string, userId: string, parsed: DccdProject?, uploadedName: string, isIndicator: string -> bool,
                      load: (Entry, string) -> Option<TreeRingData>, associatedNames: seq<string>, stored: bool,
                      ghost valueBlocks: set<Values>)
    returns (r: Result<string, ImportError>)
    requires parsed != null ==> parsed.SeriesWellFormed() && parsed.ValueBlocksWithin(valueBlocks)
    modifies parsed, valueBlocks
    modifies if parsed != null then parsed.measurementSeriesEntities else []
    modifies if parsed != null then parsed.derivedSeriesEntities else []
    ensures parsed == null ==> r == Failure(TridasLoadFailed)
    ensures parsed != null ==>
      parsed.fileName == tridasFile.name && parsed.ownerId == userId && parsed.tridasLanguage == LocaleLanguage(language)
    ensures r.Success? ==> parsed != null && stored && r.value == parsed.sid
    ensures r.Failure? ==> r.error == TridasLoadFailed || IsImportStepError(r.error)
  {
    var tridasLanguage := LocaleLanguage(language);
    var associatedFolder, valuesFolder := FindImportFolders(projectListing);
    var imported := ImportTridasFile(tridasFile, tridasLanguage, userId, parsed);
    if imported.Failure? {
      return Failure(imported.error);
    }
    assert (parsed.fileName, parsed.ownerId, parsed.tridasLanguage) == (tridasFile.name, userId, tridasLanguage);
    r := ImportParsedProject(parsed, associatedFolder, projectPath + [PATH_SEPARATOR] + ASSOCIATED_FOLDER_NAME, valuesFolder,
                             formatString, uploadedName, isIndicator, load, associatedNames, stored, valueBlocks);
  }

  /**
   * `importProject(projectFolder, userId)`.  The metadata comes from the
   * parent folder's listing, the bundle from the project folder's path and
   * listing;
   * `parsed` is what the TRiDaS parser makes of the first xml file (null on
   * failure), `associatedNames` the associated-file names the project
   * mentions and `stored` whether the data service stores the project.
   * Invalid metadata aborts; a bundle without an xml file gives the empty
   * id; otherwise the first xml file is the project's TRiDaS file.
   */
  method ImportProject(parentListing: seq<Entry>, projectPath: string, projectListing: seq<Entry>,
                       parse: Entry -> MetadataDocument, readingFormats: seq<string>, userId: string, parsed: DccdProject?, uploadedName: string,
                       isIndicator: string -> bool, load: (Entry, string) -> Option<TreeRingData>,
                       associatedNames: seq<string>, stored: bool, ghost valueBlocks: set<Values>)
    returns (r: Result<string, ImportError>)
    requires parsed != null ==> parsed.SeriesWellFormed() && parsed.ValueBlocksWithin(valueBlocks)
    modifies parsed, valueBlocks
    modifies if parsed != null then parsed.measurementSeriesEntities else []
    modifies if parsed != null then parsed.derivedSeriesEntities else []
    ensures r == Failure(WrongMetadata) <==> !ValidateMetadata(LoadMetadata(parentListing, parse), readingFormats)
    ensures ValidateMetadata(LoadMetadata(parentListing, parse), readingFormats) ==>
      (GetXMLfiles(projectListing) == [] ==> r == Success([]))
    ensures ValidateMetadata(LoadMetadata(parentListing, parse), readingFormats) ==>
      (GetXMLfiles(projectListing) != [] && parsed == null ==> r == Failure(TridasLoadFailed))
    ensures var m := LoadMetadata(parentListing, parse);
      ValidateMetadata(m, readingFormats) && GetXMLfiles(projectListing) != [] && parsed != null ==>
      && parsed.fileName == GetXMLfiles(projectListing)[0].name
      && parsed.ownerId == userId && parsed.tridasLanguage == LocaleLanguage(m.language)
    ensures r.Success? && GetXMLfiles(projectListing) != [] ==> parsed != null && stored && r.value == parsed.sid
  {
    var metadata := LoadMetadata(parentListing, parse);
    if !ValidateMetadata(metadata, readingFormats) {
      return Failure(WrongMetadata);
    }
    var xmlFiles := GetXMLfiles(projectListing);
    if |xmlFiles| == 0 {
      return Success([]);
    }
    r := ImportBundle(projectPath, projectListing, xmlFiles[0], metadata.language, metadata.valuesFormat, userId, parsed,
                      uploadedName, isIndicator, load, associatedNames, stored, valueBlocks);
  }
}
