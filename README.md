# DCCD REST: permission redaction, project import and access decisions

This project models the core of the DCCD REST service in Dafny. DCCD is an
archive of dendrochronological (tree-ring) projects. Each project is a
TRiDaS (Tree-Ring Data Standard 1.2.2) tree:

    project -> objects (nested) -> elements -> samples -> radii
            -> measurement series -> values

Derived series sit at project level.

The model covers four parts of the service:

- **Redaction.** Both TRiDaS restrictors (`TridasPermissionRestrictor` and its
  subclass `TridasRequestedLevelRestrictor`) prune a project in place to a
  permission level. Each removed child leaves a numbered placeholder generic
  field, and the restrictors stamp notes saying the tree is incomplete.
  - The project is a class (`Tridas.Project`), and the restrictor methods
    change it in place.
  - Each method is proved against a function on the project's snapshot value
    (module `Restriction`). Every property is proved about that function.
- **Import.** `DccdProjectImporter` turns an unzipped bundle into a project.
  It covers the metadata defaults and validation, the first-indicator scan per
  series, the placeholder-fill merge of loaded value groups into a series
  (`Values` blocks are objects filled in place), the bookkeeping of the TRiDaS
  file, and the first-error-aborts control flow of `importProject`.
- **Access decisions and XML.** `ProjectResource` and `AbstractProjectResource`
  cover the following:
  - the entity-level maps;
  - how the `/tridas` endpoints compose the two restrictors;
  - the first-match file lookup and the owner/admin gate on permission metadata;
  - the visibility gates over a project's default level, and the time-range
    minimum and maximum;
  - the XML these endpoints write, modelled as a `Writer` whose text only grows.
- **Helpers.** These are `FileExtractor` (extensions, listing filters,
  case-insensitive lookup), `XmlStringUtil` (element strings and XML escaping)
  and the BC/AD year conversion of the time test-data generator.

The model rests on these assumptions:

- `ProjectPermissionLevel` is not part of this model. It is taken to be the
  ordered enum MINIMAL < PROJECT < OBJECT < ELEMENT < SAMPLE < RADIUS <
  SERIES < VALUES, with `A.isPermittedBy(B)` exactly when A's rank is at most
  B's. Its `toString` is taken to be the constant's name
  (`PermissionLevel.Name`).
- `StringEscapeUtils.escapeXml` is modelled as in commons-lang 2, which works
  on the UTF-16 code units of the Java string:
  - the five entities `&amp; &lt; &gt; &quot; &apos;`;
  - `&#n;` with the decimal value of every code unit above 0x7F, so a
    character beyond U+FFFF becomes two references, one per surrogate
    (U+1F600 becomes `&#55357;&#56832;`).
- `new Locale(language)` is modelled as before Java 17: the language is
  lower-cased (ASCII) and the codes "he", "yi" and "id" become the old ISO 639
  codes "iw", "ji" and "in".
- `compareToIgnoreCase` is modelled with ASCII case folding.
- `StringUtil.getUniqueStrings` keeps the first occurrence of each string.
- External services come in as parameters:
  - the metadata parser's result;
  - the reading formats;
  - the data-file indicator test;
  - the raw-file loader;
  - what the TRiDaS parser makes of a file;
  - whether the store succeeds;
  - authentication and access rights.

In two places the code as written evidently differs from what its authors
intended; both are listed under "## Findings". There the operations model the
intended behaviour. The behaviour as written is kept beside them, in
`Restriction.RestrictedSeriesAsWritten` and
`DccdProjectImporter.LoadMetadataAsWritten`, and the lemmas
`Restriction.ValuesPlaceholderSaysNull` and
`DccdProjectImporter.NoMetadataFileAborts` exhibit each difference.

## Model

All source paths are relative to the repository root.

| member | source | states |
|---|---|---|
| PermissionLevel.Stricter | src/main/java/nl/knaw/dans/dccd/rest/ProjectResource.java:204-217 | the level that wins when a requested and an effective restriction are both applied: it is one of the two and is permitted by both |
| PermissionLevel.PermittedByIsTotalOrder | src/main/java/nl/knaw/dans/dccd/rest/tridas/TridasPermissionRestrictor.java:220-282 | `isPermittedBy` is a total order from MINIMAL to VALUES: reflexive, antisymmetric, transitive and total |
| PermissionLevel.OnlyValuesPermitsValues | src/main/java/nl/knaw/dans/dccd/rest/tridas/TridasPermissionRestrictor.java:284-304 | the values of a series survive only at level VALUES |
| Restriction.DisplayStringsDistinct | src/main/java/nl/knaw/dans/dccd/rest/tridas/TridasPermissionRestrictor.java:24-35 | the display-string map gives every TRiDaS entity class a distinct, non-empty label; the runtime class of a values list has no entry |
| Restriction.Placeholders | src/main/java/nl/knaw/dans/dccd/rest/tridas/TridasPermissionRestrictor.java:211-218 | `addPlaceholders` with count n yields exactly n fields, so n = 0 adds nothing |
| Restriction.PlaceholderAt | src/main/java/nl/knaw/dans/dccd/rest/tridas/TridasPermissionRestrictor.java:211-218 | the i-th placeholder is the removed-entity field labelled `"(T) i+1 of n "` |
| Restriction.PlaceholderReadsBack | src/main/java/nl/knaw/dans/dccd/rest/tridas/TridasPermissionRestrictor.java:197-218 | each placeholder is named `dccd.incompleteTridas.entityPlaceholder`, and its value starts with `"(T) "` followed by its own 1-based position, which can be read back |
| Restriction.PlaceholdersDistinct | src/main/java/nl/knaw/dans/dccd/rest/tridas/TridasPermissionRestrictor.java:211-218 | no two placeholders of one call are equal |
| Restriction.WordingDiffers | src/main/java/nl/knaw/dans/dccd/rest/tridas/TridasRequestedLevelRestrictor.java:14-36 | the subclass's overridden note and placeholder never coincide with the parent's ("requested" instead of "authorised") |
| Restriction.RestrictedSeries | src/main/java/nl/knaw/dans/dccd/rest/tridas/TridasPermissionRestrictor.java:284-304 | below VALUES a series loses all its values and gains one `(values)` placeholder per block after its fields; at VALUES it is unchanged (the corrected label, see Findings) |
| Restriction.RestrictedSeriesAsWritten | src/main/java/nl/knaw/dans/dccd/rest/tridas/TridasPermissionRestrictor.java:289-291 | the series rule as written, where the label lookup uses the list's runtime class (exhibited by `ValuesPlaceholderSaysNull`) |
| Restriction.ValuesPlaceholderSaysNull | src/main/java/nl/knaw/dans/dccd/rest/tridas/TridasPermissionRestrictor.java:284-293 | as written, the placeholder for a series' one values block reads `"(null) 1 of 1 "`; the corrected rule reads `"(values) 1 of 1 "` |
| Restriction.RestrictedRadius | src/main/java/nl/knaw/dans/dccd/rest/tridas/TridasPermissionRestrictor.java:269-282 | below SERIES a radius's measurement series are cleared and leave one placeholder each; otherwise its fields stay and every series is kept, restricted |
| Restriction.RestrictedSample | src/main/java/nl/knaw/dans/dccd/rest/tridas/TridasPermissionRestrictor.java:254-267 | below RADIUS a sample's radii are cleared and leave one placeholder each; otherwise its fields stay and every radius is kept |
| Restriction.RestrictedElement | src/main/java/nl/knaw/dans/dccd/rest/tridas/TridasPermissionRestrictor.java:239-252 | below SAMPLE an element's samples are cleared and leave one placeholder each; otherwise its fields stay and every sample is kept |
| Restriction.RestrictedObject | src/main/java/nl/knaw/dans/dccd/rest/tridas/TridasPermissionRestrictor.java:220-237 | below ELEMENT an object's elements are cleared and leave one placeholder each; otherwise they are kept. Sub-objects are always kept (recursed), and attributes and files are untouched |
| Restriction.OpenAccessObject | src/main/java/nl/knaw/dans/dccd/rest/tridas/TridasPermissionRestrictor.java:128-156 | an open-access object has no elements, no files and exactly one open-access note; its sub-objects are kept |
| Restriction.OpenAccessProject | src/main/java/nl/knaw/dans/dccd/rest/tridas/TridasPermissionRestrictor.java:97-121 | an open-access project has no references, researches, files or derived series, and exactly one open-access note; its objects are kept |
| Restriction.WithoutDerivedSeries | src/main/java/nl/knaw/dans/dccd/rest/tridas/TridasPermissionRestrictor.java:85-90 | `removeDerivedSeries` empties the derived series, grows the generic fields by exactly the old count and keeps the old fields as a prefix |
| Restriction.WithoutObjects | src/main/java/nl/knaw/dans/dccd/rest/tridas/TridasRequestedLevelRestrictor.java:75-81 | `removeObjects` empties the objects, grows the generic fields by exactly the old object count (sub-objects get none) and keeps the old fields as a prefix |
| Restriction.Descended | src/main/java/nl/knaw/dans/dccd/rest/tridas/TridasPermissionRestrictor.java:70-78 | descending keeps the number of objects and derived series, and appends exactly one incompleteness note |
| Restriction.ObjectWithinValues | src/main/java/nl/knaw/dans/dccd/rest/tridas/TridasPermissionRestrictor.java:80-81 | every object, at any depth, already satisfies what level VALUES allows |
| Restriction.ProjectWithinValues | src/main/java/nl/knaw/dans/dccd/rest/tridas/TridasPermissionRestrictor.java:80-81 | every project already satisfies what level VALUES allows |
| Restriction.RadiusRestrictedWithin | src/main/java/nl/knaw/dans/dccd/rest/tridas/TridasPermissionRestrictor.java:269-282 | restricting a radius that respects one level to another gives a radius that respects the stricter of the two |
| Restriction.SampleRestrictedWithin | src/main/java/nl/knaw/dans/dccd/rest/tridas/TridasPermissionRestrictor.java:254-267 | the same for a sample |
| Restriction.ElementRestrictedWithin | src/main/java/nl/knaw/dans/dccd/rest/tridas/TridasPermissionRestrictor.java:239-252 | the same for an element |
| Restriction.ObjectRestrictedWithin | src/main/java/nl/knaw/dans/dccd/rest/tridas/TridasPermissionRestrictor.java:220-237 | the same for an object and all its sub-objects |
| Restriction.OpenAccessObjectWithin | src/main/java/nl/knaw/dans/dccd/rest/tridas/TridasPermissionRestrictor.java:128-156 | an open-access object respects every level |
| Restriction.OpenAccessProjectWithin | src/main/java/nl/knaw/dans/dccd/rest/tridas/TridasPermissionRestrictor.java:97-121 | an open-access project respects every level |
| Restriction.DescendedWithin | src/main/java/nl/knaw/dans/dccd/rest/tridas/TridasPermissionRestrictor.java:65-79 | the descent at OBJECT..SERIES keeps a project within the stricter level |
| Restriction.ProjectRestrictedWithin | src/main/java/nl/knaw/dans/dccd/rest/tridas/TridasPermissionRestrictor.java:48-83 | restricting a project that respects one level to another gives one that respects the stricter of the two, for both restrictors |
| Restriction.ProjectRestrictedIsWithin | src/main/java/nl/knaw/dans/dccd/rest/tridas/TridasPermissionRestrictor.java:48-83 | after `restrictToPermitted(level)` nothing finer than `level` remains anywhere in the tree |
| Restriction.SeriesFixed | src/main/java/nl/knaw/dans/dccd/rest/tridas/TridasPermissionRestrictor.java:284-304 | a series that already respects the level is left exactly as it is |
| Restriction.RadiusFixed | src/main/java/nl/knaw/dans/dccd/rest/tridas/TridasPermissionRestrictor.java:269-282 | a radius that already respects the level is left exactly as it is |
| Restriction.SampleFixed | src/main/java/nl/knaw/dans/dccd/rest/tridas/TridasPermissionRestrictor.java:254-267 | a sample that already respects the level is left exactly as it is |
| Restriction.ElementFixed | src/main/java/nl/knaw/dans/dccd/rest/tridas/TridasPermissionRestrictor.java:239-252 | an element that already respects the level is left exactly as it is |
| Restriction.ObjectFixed | src/main/java/nl/knaw/dans/dccd/rest/tridas/TridasPermissionRestrictor.java:220-237 | an object tree that already respects the level is left exactly as it is |
| Restriction.RestrictedObjectAtValues | src/main/java/nl/knaw/dans/dccd/rest/tridas/TridasPermissionRestrictor.java:220-237 | at VALUES the object descent changes nothing |
| Restriction.RestrictedObjectIdempotent | src/main/java/nl/knaw/dans/dccd/rest/tridas/TridasPermissionRestrictor.java:220-237 | restricting an object twice to one level is the same as once |
| Restriction.RestrictedSeriesIdempotent | src/main/java/nl/knaw/dans/dccd/rest/tridas/TridasPermissionRestrictor.java:284-304 | restricting a series twice to one level is the same as once |
| Restriction.OpenAccessObjectShape | src/main/java/nl/knaw/dans/dccd/rest/tridas/TridasPermissionRestrictor.java:128-156 | after the open-access collapse, every object at every depth has no elements, no files and exactly one open-access note, and the nesting of sub-objects is the original's |
| Restriction.OpenAccessObjectFixed | src/main/java/nl/knaw/dans/dccd/rest/tridas/TridasPermissionRestrictor.java:128-156 | a tree that is already open access is left as it is |
| Restriction.OpenAccessObjectIdempotent | src/main/java/nl/knaw/dans/dccd/rest/tridas/TridasPermissionRestrictor.java:128-156 | collapsing an object to open access twice is the same as once |
| Restriction.MinimalIsOpenAccess | src/main/java/nl/knaw/dans/dccd/rest/tridas/TridasPermissionRestrictor.java:52-55 | at MINIMAL, for either restrictor, the project keeps only title and identifier. Derived series, references, researches and files are gone, the generic fields are one open-access note, and every object at every depth is open access with its nesting kept |
| Restriction.PermissionProjectLevel | src/main/java/nl/knaw/dans/dccd/rest/tridas/TridasPermissionRestrictor.java:57-64 | at PROJECT the derived series become placeholders, then exactly one note naming the level follows, and every object is collapsed to open access with its nesting kept |
| Restriction.RequestedProjectLevel | src/main/java/nl/knaw/dans/dccd/rest/tridas/TridasRequestedLevelRestrictor.java:49-54 | at PROJECT the requested-level restrictor removes all objects and derived series. The generic fields grow by object placeholders, then derived-series placeholders, then one note, in that order |
| Restriction.DescentLevels | src/main/java/nl/knaw/dans/dccd/rest/tridas/TridasPermissionRestrictor.java:65-79 | at OBJECT..RADIUS the derived series are replaced by placeholders before the descent; at SERIES they are kept but restricted one by one. Every object is restricted, and one note is appended |
| Restriction.OpenAccessProjectIdempotent | src/main/java/nl/knaw/dans/dccd/rest/tridas/TridasPermissionRestrictor.java:97-121 | the open-access collapse of a project is idempotent |
| Restriction.PermissionProjectLevelRepeated | src/main/java/nl/knaw/dans/dccd/rest/tridas/TridasPermissionRestrictor.java:57-64 | restricting to PROJECT again changes only one thing: another note is appended (there is no deduplication) |
| Restriction.DescendedRepeated | src/main/java/nl/knaw/dans/dccd/rest/tridas/TridasPermissionRestrictor.java:70-78 | descending again only appends another note |
| Restriction.RequestedProjectLevelRepeated | src/main/java/nl/knaw/dans/dccd/rest/tridas/TridasRequestedLevelRestrictor.java:49-54 | the requested-level PROJECT restriction repeated only appends another note |
| Restriction.RemovalThenDescentRepeated | src/main/java/nl/knaw/dans/dccd/rest/tridas/TridasPermissionRestrictor.java:65-79 | removal followed by descent, repeated, only appends another note |
| Restriction.RestrictedProjectRepeated | src/main/java/nl/knaw/dans/dccd/rest/tridas/TridasPermissionRestrictor.java:48-83 | a second restriction to the same level is a no-op at MINIMAL and VALUES, and otherwise exactly one more note |
| TridasPermissionRestrictor.AddPlaceholders | src/main/java/nl/knaw/dans/dccd/rest/tridas/TridasPermissionRestrictor.java:211-218 | the loop appends exactly the n placeholders, in order, after the existing fields |
| TridasPermissionRestrictor.RestrictSeries | src/main/java/nl/knaw/dans/dccd/rest/tridas/TridasPermissionRestrictor.java:284-304 | computes the series rule (measurement and derived series alike) |
| TridasPermissionRestrictor.RestrictRadius | src/main/java/nl/knaw/dans/dccd/rest/tridas/TridasPermissionRestrictor.java:269-282 | the radius branch and its loop compute the radius rule |
| TridasPermissionRestrictor.RestrictSample | src/main/java/nl/knaw/dans/dccd/rest/tridas/TridasPermissionRestrictor.java:254-267 | the sample branch and its loop compute the sample rule |
| TridasPermissionRestrictor.RestrictElement | src/main/java/nl/knaw/dans/dccd/rest/tridas/TridasPermissionRestrictor.java:239-252 | the element branch and its loop compute the element rule |
| TridasPermissionRestrictor.RestrictObject | src/main/java/nl/knaw/dans/dccd/rest/tridas/TridasPermissionRestrictor.java:220-237 | the object branch, its loop and the recursion into sub-objects compute the object rule |
| TridasPermissionRestrictor.RestrictObjectToOpenAccess | src/main/java/nl/knaw/dans/dccd/rest/tridas/TridasPermissionRestrictor.java:128-156 | the attribute clearing and the recursion compute the open-access collapse of an object |
| TridasPermissionRestrictor.RestrictProjectToOpenAccess | src/main/java/nl/knaw/dans/dccd/rest/tridas/TridasPermissionRestrictor.java:97-121 | changes the project in place into its open-access collapse |
| TridasPermissionRestrictor.RemoveDerivedSeries | src/main/java/nl/knaw/dans/dccd/rest/tridas/TridasPermissionRestrictor.java:85-90 | changes the project in place: derived series replaced by placeholders |
| TridasPermissionRestrictor.Descend | src/main/java/nl/knaw/dans/dccd/rest/tridas/TridasPermissionRestrictor.java:70-78 | the two loops and the note change the project in place into its descent |
| TridasPermissionRestrictor.RestrictProject | src/main/java/nl/knaw/dans/dccd/rest/tridas/TridasPermissionRestrictor.java:48-83 | `restrictToPermitted(project, level)` leaves the project equal to the restriction function of its old state, so every `Restriction` lemma holds of the new state |
| TridasRequestedLevelRestrictor.RemoveObjects | src/main/java/nl/knaw/dans/dccd/rest/tridas/TridasRequestedLevelRestrictor.java:75-81 | changes the project in place: objects replaced by placeholders |
| TridasRequestedLevelRestrictor.RestrictProject | src/main/java/nl/knaw/dans/dccd/rest/tridas/TridasRequestedLevelRestrictor.java:40-73 | the overriding `restrictToPermitted` leaves the project equal to the requested-level restriction of its old state |
| Text.IntToString | src/main/java/nl/knaw/dans/dccd/rest/AbstractProjectResource.java:88-90 | Java's decimal rendering of an int: non-empty, with a leading '-' exactly for negative numbers |
| Text.NatToString | src/main/java/nl/knaw/dans/dccd/rest/tridas/TridasPermissionRestrictor.java:215 | the `%d` rendering of a count: digits only, with no leading zero |
| Text.NatToStringRoundTrip | src/main/java/nl/knaw/dans/dccd/rest/tridas/TridasPermissionRestrictor.java:215 | reading the digits back gives the number |
| Text.NatToStringInjective | src/main/java/nl/knaw/dans/dccd/rest/tridas/TridasPermissionRestrictor.java:215 | distinct numbers render differently |
| Text.LeadingDigits | src/main/java/nl/knaw/dans/dccd/rest/tridas/TridasPermissionRestrictor.java:215 | the length of the maximal run of digits at the front of a string |
| Text.ReadLeadingNat | src/main/java/nl/knaw/dans/dccd/rest/tridas/TridasPermissionRestrictor.java:215 | a rendered number followed by a non-digit is read back whole |
| Text.LeadingDigitsOfDigitsThen | src/main/java/nl/knaw/dans/dccd/rest/tridas/TridasPermissionRestrictor.java:215 | a digit string followed by a non-digit is exactly the leading run |
| Text.TrimStart | src/main/java/nl/knaw/dans/dccd/rest/util/XmlStringUtil.java:26 | the suffix left after dropping the leading whitespace and control characters (`trim` drops every char up to ' ') |
| Text.TrimEnd | src/main/java/nl/knaw/dans/dccd/rest/util/XmlStringUtil.java:26 | the prefix left after dropping the trailing ones |
| Text.TrimEmptyIffBlank | src/main/java/nl/knaw/dans/dccd/rest/util/XmlStringUtil.java:26 | a string trims to empty exactly when all its characters are trimmed ones |
| Text.TrimIdempotent | src/main/java/nl/knaw/dans/dccd/rest/archival/DccdProjectImporter.java:90-92 | trimming a trimmed string changes nothing, so a setting stored trimmed stays as it is |
| Text.FoldCase | src/main/java/nl/knaw/dans/dccd/rest/archival/FileExtractor.java:149 | folding never leaves an upper-case ASCII letter |
| Text.EqualsIgnoreCaseIsEquivalence | src/main/java/nl/knaw/dans/dccd/rest/archival/FileExtractor.java:180 | `compareToIgnoreCase(..) == 0` is reflexive, symmetric and transitive |
| XmlStringUtil.Combine | src/main/java/nl/knaw/dans/dccd/rest/util/XmlStringUtil.java:34 | a high and a low surrogate combine into a code point from U+10000 to U+10FFFF |
| XmlStringUtil.Utf16Units | src/main/java/nl/knaw/dans/dccd/rest/util/XmlStringUtil.java:34 | the UTF-16 code units of a character: the character itself below U+10000, otherwise a high and a low surrogate that combine back into it |
| XmlStringUtil.EscapeChar | src/main/java/nl/knaw/dans/dccd/rest/util/XmlStringUtil.java:34 | `escapeXml` of one character is never empty, and plain ASCII other than the five markup characters is kept as it is |
| XmlStringUtil.EscapeSupplementary | src/main/java/nl/knaw/dans/dccd/rest/util/XmlStringUtil.java:34 | a character beyond U+FFFF is escaped as the references of its two surrogates, high first |
| XmlStringUtil.ReadEntity | src/main/java/nl/knaw/dans/dccd/rest/util/XmlStringUtil.java:34 | the decoder partner of `escapeXml`: a recognised entity starts at '&' and its length lies within the input |
| XmlStringUtil.ReadCharReference | src/main/java/nl/knaw/dans/dccd/rest/util/XmlStringUtil.java:34 | a recognised `&#n;` reference, or pair of surrogate references, lies within the input |
| XmlStringUtil.ReadReferenceDigits | src/main/java/nl/knaw/dans/dccd/rest/util/XmlStringUtil.java:34 | the digits and ';' of a reference lie within the input |
| XmlStringUtil.ReadRenderedDigits | src/main/java/nl/knaw/dans/dccd/rest/util/XmlStringUtil.java:34 | a rendered number and ';' read back as that number, leaving the rest |
| XmlStringUtil.ReadReferencePair | src/main/java/nl/knaw/dans/dccd/rest/util/XmlStringUtil.java:34 | a high-surrogate reference followed by a low-surrogate reference reads as the pair's character, spanning both |
| XmlStringUtil.ReadDigitsBeforeReference | src/main/java/nl/knaw/dans/dccd/rest/util/XmlStringUtil.java:34 | a rendered number and ';' read back, and a second reference starts right after them |
| XmlStringUtil.ReadPairAfterPrefix | src/main/java/nl/knaw/dans/dccd/rest/util/XmlStringUtil.java:34 | after "&#", a high surrogate's digits and the low surrogate's reference read as the combined character |
| XmlStringUtil.ReadSurrogateReferences | src/main/java/nl/knaw/dans/dccd/rest/util/XmlStringUtil.java:34 | the two surrogate references read back as the combined character, spanning both |
| XmlStringUtil.ReadSurrogatePair | src/main/java/nl/knaw/dans/dccd/rest/util/XmlStringUtil.java:34 | the escape of a character beyond U+FFFF, two references, reads back as that one character |
| XmlStringUtil.ReadNamedEntity | src/main/java/nl/knaw/dans/dccd/rest/util/XmlStringUtil.java:34 | each of the five named entities decodes to its character, whatever follows it |
| XmlStringUtil.ReadDecimalReference | src/main/java/nl/knaw/dans/dccd/rest/util/XmlStringUtil.java:34 | a decimal character reference decodes to its character |
| XmlStringUtil.ReadNumericReference | src/main/java/nl/knaw/dans/dccd/rest/util/XmlStringUtil.java:34 | the escape of a character above 0x7F decodes back to it, whether one reference or a surrogate pair |
| XmlStringUtil.ReadEscapedChar | src/main/java/nl/knaw/dans/dccd/rest/util/XmlStringUtil.java:34 | every escaped character decodes back to itself |
| XmlStringUtil.UnescapeChar | src/main/java/nl/knaw/dans/dccd/rest/util/XmlStringUtil.java:34 | decoding an escaped character followed by any text gives the character, then the decoded rest |
| XmlStringUtil.EscapeRoundTrip | src/main/java/nl/knaw/dans/dccd/rest/util/XmlStringUtil.java:34 | decoding `escapeXml(s)` gives back `s`, so the escape loses nothing |
| XmlStringUtil.EscapeHasNoMarkup | src/main/java/nl/knaw/dans/dccd/rest/util/XmlStringUtil.java:34 | escaped text contains no '<' or '>', so it cannot open or close an element |
| XmlStringUtil.ElementStringShape | src/main/java/nl/knaw/dans/dccd/rest/util/XmlStringUtil.java:32-35 | `getXMLElementString(tag, text)` starts with `<tag>` and ends with `</tag>` (tag unescaped), and the content between them decodes back to `text` |
| XmlStringUtil.ElementStringOptional | src/main/java/nl/knaw/dans/dccd/rest/util/XmlStringUtil.java:24-30 | the optional form is empty exactly when the text is null or trims to empty; otherwise it is the element string of the untrimmed text |
| FileExtractor.LastIndexOf | src/main/java/nl/knaw/dans/dccd/rest/archival/FileExtractor.java:160 | `lastIndexOf`: the position holds the character and nothing after it does, or it is -1 |
| FileExtractor.ExtensionIsSuffix | src/main/java/nl/knaw/dans/dccd/rest/archival/FileExtractor.java:156-166 | the extension is a dot-free suffix of the name, preceded by a dot that is not the first character |
| FileExtractor.NoExtensionCases | src/main/java/nl/knaw/dans/dccd/rest/archival/FileExtractor.java:156-166 | there is no extension exactly when the name has no dot, its only dot is the first character, or it ends with a dot |
| FileExtractor.ExtensionOfStemAndExtension | src/main/java/nl/knaw/dans/dccd/rest/archival/FileExtractor.java:156-166 | a non-empty stem, a dot and a dot-free extension give back that extension |
| FileExtractor.GetFilesWithExtension | src/main/java/nl/knaw/dans/dccd/rest/archival/FileExtractor.java:144-154 | keeps exactly the regular files whose extension equals the argument ignoring case |
| FileExtractor.FirstFileWithExtension | src/main/java/nl/knaw/dans/dccd/rest/archival/FileExtractor.java:144-154 | the filter keeps listing order: its first result is the first match in the listing |
| FileExtractor.GetFolders | src/main/java/nl/knaw/dans/dccd/rest/archival/FileExtractor.java:126-135 | keeps exactly the directories |
| FileExtractor.FindFileNoCase | src/main/java/nl/knaw/dans/dccd/rest/archival/FileExtractor.java:175-186 | returns a regular file whose name equals the argument ignoring case; it fails (the `files[0]` exception) exactly when there is none |
| FileExtractor.FindFileNoCaseIsFirst | src/main/java/nl/knaw/dans/dccd/rest/archival/FileExtractor.java:175-186 | the file returned is the first such file in the listing |
| FileExtractor.GetArchivalMetaDataFile | src/main/java/nl/knaw/dans/dccd/rest/archival/FileExtractor.java:56-71 | the first xml file, or null exactly when the folder has none |
| FileExtractor.LastNamedIsUnique | src/main/java/nl/knaw/dans/dccd/rest/archival/FileExtractor.java:73-85 | a "last match wins" loop has exactly one possible outcome |
| FileExtractor.LastNamedInIsLast | src/main/java/nl/knaw/dans/dccd/rest/archival/FileExtractor.java:73-85 | the reference function picks the last entry with the name, or none |
| FileExtractor.GetDataFolder | src/main/java/nl/knaw/dans/dccd/rest/archival/FileExtractor.java:73-85 | the loop returns the last sub-directory named exactly "data", or null exactly when there is none |
| DccdProjectImporter.LoadMetadata | src/main/java/nl/knaw/dans/dccd/rest/archival/DccdProjectImporter.java:69-124 | the loaded language and format are never empty and always trimmed; without a metadata file both defaults hold (the corrected behaviour, see Findings) |
| DccdProjectImporter.SettingIsTrimmed | src/main/java/nl/knaw/dans/dccd/rest/archival/DccdProjectImporter.java:88-106 | each setting is non-empty and trimmed whenever its default is |
| DccdProjectImporter.SettingOverridesFallback | src/main/java/nl/knaw/dans/dccd/rest/archival/DccdProjectImporter.java:88-106 | a present, non-blank value replaces the default with its trimmed text; an absent or blank one keeps the default |
| DccdProjectImporter.LoadedSettingsOverrideDefaults | src/main/java/nl/knaw/dans/dccd/rest/archival/DccdProjectImporter.java:69-124 | defaults "Heidelberg" and "en". A read or parse failure keeps both. Otherwise language and format are each overridden independently by a present, non-blank value |
| DccdProjectImporter.LoadMetadataAsWritten | src/main/java/nl/knaw/dans/dccd/rest/archival/DccdProjectImporter.java:77-84 | as written, loading fails exactly when there is no metadata file, and otherwise agrees with the corrected function |
| DccdProjectImporter.NoMetadataFileAborts | src/main/java/nl/knaw/dans/dccd/rest/archival/DccdProjectImporter.java:78-84 | a bundle parent holding only a `data` folder aborts as written but gets the defaults as intended |
| DccdProjectImporter.ValidateMetadata | src/main/java/nl/knaw/dans/dccd/rest/archival/DccdProjectImporter.java:126-142 | metadata is valid exactly when its values format is one of the reading formats |
| DccdProjectImporter.EmptyValues | src/main/java/nl/knaw/dans/dccd/rest/archival/DccdProjectImporter.java:478-497 | the placeholders are exactly the values sub-entities whose readings are unset, in sub-entity order, without repeats |
| DccdProjectImporter.GetEmptyTridasValues | src/main/java/nl/knaw/dans/dccd/rest/archival/DccdProjectImporter.java:478-497 | the loop collects exactly those placeholders |
| DccdProjectImporter.Surplus | src/main/java/nl/knaw/dans/dccd/rest/archival/DccdProjectImporter.java:460-464 | the groups beyond the first P: V-P of them when V > P, otherwise none, in order |
| DccdProjectImporter.Wrapped | src/main/java/nl/knaw/dans/dccd/rest/archival/DccdProjectImporter.java:462-466 | one new values sub-entity per surplus group, in order |
| DccdProjectImporter.FillPlaceholders | src/main/java/nl/knaw/dans/dccd/rest/archival/DccdProjectImporter.java:447-457 | placeholder i < n gets group i's readings appended; every other placeholder and every variable and unit is unchanged |
| DccdProjectImporter.AppendValuesEntities | src/main/java/nl/knaw/dans/dccd/rest/archival/DccdProjectImporter.java:460-475 | the surplus groups are appended, in order, both as sub-entities and to the TRiDaS series' values |
| DccdProjectImporter.AddValuesToSeriesEntity | src/main/java/nl/knaw/dans/dccd/rest/archival/DccdProjectImporter.java:437-476 | with P placeholders and V groups: placeholder i < min(P,V) gets group i's readings; the trailing placeholders stay empty; variables and units are untouched; exactly the V-P surplus groups are appended to both lists; the groups themselves are unchanged |
| DccdProjectImporter.AddDataToSeriesEntity | src/main/java/nl/knaw/dans/dccd/rest/archival/DccdProjectImporter.java:403-435 | the same merge, and an empty group list leaves the series unchanged |
| DccdProjectImporter.FirstReference | src/main/java/nl/knaw/dans/dccd/rest/archival/DccdProjectImporter.java:310-315 | the first generic field with a set name and value whose name is a data-file indicator, or none exactly when there is no such field |
| DccdProjectImporter.LookupDataFileCases | src/main/java/nl/knaw/dans/dccd/rest/archival/DccdProjectImporter.java:303-345 | for one series: no reference means nothing happens; a reference with no values folder aborts; a found file is the case-insensitive match of the field's value in that folder and loads successfully |
| DccdProjectImporter.Uploaded | src/main/java/nl/knaw/dans/dccd/rest/archival/DccdProjectImporter.java:329-330 | only the referencing field is renamed to the "uploaded" marker, and its value is kept |
| DccdProjectImporter.NewValuesList | src/main/java/nl/knaw/dans/dccd/rest/archival/DccdProjectImporter.java:324-325 | one fresh values block per loaded group, with that group's readings, variable and unit |
| DccdProjectImporter.FieldLists | src/main/java/nl/knaw/dans/dccd/rest/archival/DccdProjectImporter.java:303-345 | one field list per series |
| DccdProjectImporter.FieldListsAt | src/main/java/nl/knaw/dans/dccd/rest/archival/DccdProjectImporter.java:303-345 | the i-th field list is series i's generic fields |
| DccdProjectImporter.Lookups | src/main/java/nl/knaw/dans/dccd/rest/archival/DccdProjectImporter.java:303-345 | one lookup outcome per series |
| DccdProjectImporter.LookupsAt | src/main/java/nl/knaw/dans/dccd/rest/archival/DccdProjectImporter.java:303-345 | the i-th outcome is the lookup of series i's fields |
| DccdProjectImporter.ImportSeriesValues | src/main/java/nl/knaw/dans/dccd/rest/archival/DccdProjectImporter.java:307-343 | the scan with `break` finds the first reference; without one, or on an abort, the series and the original files are unchanged; on success the field is renamed and the file recorded |
| DccdProjectImporter.ImportDataFile | src/main/java/nl/knaw/dans/dccd/rest/archival/DccdProjectImporter.java:319-340 | the three ways a referenced file fails (no folder, no such file, load failure), in that order, each leaving everything unchanged; on success the field is renamed and the file recorded |
| DccdProjectImporter.ImportSeriesList | src/main/java/nl/knaw/dans/dccd/rest/archival/DccdProjectImporter.java:303-345 | the loop stops at the first series whose lookup aborts; without an error every series has its first reference renamed and the files found are appended in series order |
| DccdProjectImporter.ScanSeries | src/main/java/nl/knaw/dans/dccd/rest/archival/DccdProjectImporter.java:305-344 | one round of that loop keeps its invariant and leaves the other series untouched |
| DccdProjectImporter.DendroLists | src/main/java/nl/knaw/dans/dccd/rest/archival/DccdProjectImporter.java:303-345 | one sub-entity list per series |
| DccdProjectImporter.DendroListsAt | src/main/java/nl/knaw/dans/dccd/rest/archival/DccdProjectImporter.java:303-345 | the i-th list is series i's sub-entities |
| DccdProjectImporter.ScannedFields | src/main/java/nl/knaw/dans/dccd/rest/archival/DccdProjectImporter.java:310-341 | after a scan without an abort the fields are unchanged (no reference) or carry the one renamed field |
| DccdProjectImporter.FirstErrorOfPrefix | src/main/java/nl/knaw/dans/dccd/rest/archival/DccdProjectImporter.java:298-394 | once an error has been met, scanning further series does not change it |
| DccdProjectImporter.SeparateParts | src/main/java/nl/knaw/dans/dccd/rest/archival/DccdProjectImporter.java:298-394 | measurement and derived series are distinct objects, so the two loops do not interfere |
| DccdProjectImporter.FirstErrorIsFirstAbort | src/main/java/nl/knaw/dans/dccd/rest/archival/DccdProjectImporter.java:303-345 | there is no error exactly when no lookup aborts; otherwise the error is that of the first aborting series |
| DccdProjectImporter.LookupErrorKinds | src/main/java/nl/knaw/dans/dccd/rest/archival/DccdProjectImporter.java:303-345 | a lookup aborts only with a missing folder, a missing file or a load failure |
| DccdProjectImporter.ValueFilesErrorKinds | src/main/java/nl/knaw/dans/dccd/rest/archival/DccdProjectImporter.java:298-394 | the value-file import fails only with those three kinds of error |
| DccdProjectImporter.ImportValueFiles | src/main/java/nl/knaw/dans/dccd/rest/archival/DccdProjectImporter.java:298-394 | measurement series first, then derived series; the first error aborts. Without one, every series has its first reference renamed and the files found are appended, measurement series first |
| DccdProjectImporter.ImportTridasFile | src/main/java/nl/knaw/dans/dccd/rest/archival/DccdProjectImporter.java:499-535 | a parser failure aborts; otherwise the project records the file name, owner and the locale's language, and the file as an original file; its associated files are unchanged |
| DccdProjectImporter.AssociatedPaths | src/main/java/nl/knaw/dans/dccd/rest/archival/DccdProjectImporter.java:280-296 | one path per associated name: the folder path, a separator, the name |
| DccdProjectImporter.AssociatedPathsRecoverNames | src/main/java/nl/knaw/dans/dccd/rest/archival/DccdProjectImporter.java:280-296 | each associated path splits back into the folder path and the name |
| DccdProjectImporter.FirstMissing | src/main/java/nl/knaw/dans/dccd/rest/archival/DccdProjectImporter.java:284-294 | the position of the first name with no regular file in the folder: every earlier name has one, and the one at that position has none |
| DccdProjectImporter.FirstMissingIffSomeMissing | src/main/java/nl/knaw/dans/dccd/rest/archival/DccdProjectImporter.java:284-294 | the first missing position lies within the names exactly when some name has no file |
| DccdProjectImporter.ImportAssociatedFiles | src/main/java/nl/knaw/dans/dccd/rest/archival/DccdProjectImporter.java:280-296 | fails exactly when there are associated names and either no associated folder or a name with no regular file in it; the paths (folder path, separator, name) of the names before the first missing one are appended in order, and the error names that file; with no names nothing changes |
| DccdProjectImporter.FindImportFolders | src/main/java/nl/knaw/dans/dccd/rest/archival/DccdProjectImporter.java:181-193 | the folder loop keeps the last sub-directory named "associated" and the last named "values" |
| DccdProjectImporter.ImportParsedProject | src/main/java/nl/knaw/dans/dccd/rest/archival/DccdProjectImporter.java:218-254 | value files, then associated files (a missing folder, then the first missing file), then the store; the first failure is the result, and success returns the project id with all files recorded under the associated folder's path. The file name, owner and language are untouched |
| DccdProjectImporter.ImportAssociatedFilesAndStore | src/main/java/nl/knaw/dans/dccd/rest/archival/DccdProjectImporter.java:226-254 | the associated files, then the store: a missing folder, then the first missing file, then a failed store is the result; success returns the project id with every associated path appended |
| DccdProjectImporter.ImportBundle | src/main/java/nl/knaw/dans/dccd/rest/archival/DccdProjectImporter.java:164-254 | a TRiDaS parse failure aborts first; any other failure is an import-step error; success means the project was parsed and stored, recording the `Locale` form of the metadata language, and returns its id |
| DccdProjectImporter.LocaleLanguage | src/main/java/nl/knaw/dans/dccd/rest/archival/DccdProjectImporter.java:164 | the language a `Locale` keeps has the length of the one given |
| DccdProjectImporter.OldIsoCode | src/main/java/nl/knaw/dans/dccd/rest/archival/DccdProjectImporter.java:164 | mapping the renamed ISO 639 codes back keeps the length |
| DccdProjectImporter.LocaleLanguageIsOldIsoCode | src/main/java/nl/knaw/dans/dccd/rest/archival/DccdProjectImporter.java:164 | the locale language is the ASCII lower case of the language with "he", "yi" and "id" mapped to "iw", "ji" and "in" |
| DccdProjectImporter.LocaleLanguageIsLowerCase | src/main/java/nl/knaw/dans/dccd/rest/archival/DccdProjectImporter.java:164 | the language a `Locale` keeps has no upper-case ASCII letter |
| DccdProjectImporter.LocaleLanguageIgnoresCase | src/main/java/nl/knaw/dans/dccd/rest/archival/DccdProjectImporter.java:164 | languages equal up to case give the same `Locale` language |
| DccdProjectImporter.LocaleLanguageIdempotent | src/main/java/nl/knaw/dans/dccd/rest/archival/DccdProjectImporter.java:164 | a `Locale` language passed to `Locale` again is kept as it is |
| DccdProjectImporter.ImportProject | src/main/java/nl/knaw/dans/dccd/rest/archival/DccdProjectImporter.java:153-255 | "wrong metadata" exactly when validation fails, before any TRiDaS file is looked up. With no xml file the id is "". Otherwise the first xml file is the TRiDaS file; the project records its name, the owner and the `Locale` form of the metadata language |
| Text.LowerCase | src/main/java/nl/knaw/dans/dccd/rest/AbstractProjectResource.java:196-207 | character-wise ASCII lower-casing, length kept |
| Text.LowerCaseAt | src/main/java/nl/knaw/dans/dccd/rest/AbstractProjectResource.java:196-207 | each character of the lower case is the folded character at the same place |
| AbstractProjectResource.LowerCaseOfName | src/main/java/nl/knaw/dans/dccd/rest/AbstractProjectResource.java:196-207 | each level's entity-level name is the lower-case form of the level's own name |
| AbstractProjectResource.EntityLevelNamesDistinct | src/main/java/nl/knaw/dans/dccd/rest/AbstractProjectResource.java:196-207 | the eight levels map to distinct names, each the lower-case form of the level's own name |
| AbstractProjectResource.GatesAt | src/main/java/nl/knaw/dans/dccd/rest/AbstractProjectResource.java:183-382 | level by level: description from PROJECT, location from OBJECT, taxons from ELEMENT, time range from SERIES; object types only at OBJECT, element and object types from ELEMENT |
| AbstractProjectResource.GatesMonotone | src/main/java/nl/knaw/dans/dccd/rest/AbstractProjectResource.java:183-382 | a more permissive default level never hides a section a stricter one shows |
| AbstractProjectResource.ElementsOfAppend | src/main/java/nl/knaw/dans/dccd/rest/AbstractProjectResource.java:264-335 | the element strings of a concatenated list are the concatenation of the parts' element strings |
| AbstractProjectResource.ElementsOfOne | src/main/java/nl/knaw/dans/dccd/rest/AbstractProjectResource.java:449-453 | one value gives `<tag>` + escaped value + `</tag>` |
| AbstractProjectResource.AppendElements | src/main/java/nl/knaw/dans/dccd/rest/AbstractProjectResource.java:264-335 | the loop appends one element string per value, in order |
| AbstractProjectResource.UniqueStrings | src/main/java/nl/knaw/dans/dccd/rest/AbstractProjectResource.java:269 | the unique strings are exactly the strings of the list, each once |
| AbstractProjectResource.PresentYears | src/main/java/nl/knaw/dans/dccd/rest/AbstractProjectResource.java:393-402 | the non-null years of one list, exactly |
| AbstractProjectResource.NonNullYears | src/main/java/nl/knaw/dans/dccd/rest/AbstractProjectResource.java:394-402 | a null list contributes no years |
| AbstractProjectResource.YearsCollected | src/main/java/nl/knaw/dans/dccd/rest/AbstractProjectResource.java:393-426 | a year is collected exactly when it is a non-null entry of one of the four interpretation lists (pith, first, last, death) |
| AbstractProjectResource.MinYear | src/main/java/nl/knaw/dans/dccd/rest/AbstractProjectResource.java:428-446 | the smallest collected year, itself one of them |
| AbstractProjectResource.MaxYear | src/main/java/nl/knaw/dans/dccd/rest/AbstractProjectResource.java:428-446 | the largest collected year, itself one of them |
| AbstractProjectResource.TimeRangeOrdered | src/main/java/nl/knaw/dans/dccd/rest/AbstractProjectResource.java:428-446 | firstYear is at most lastYear, and both occur among the years |
| AbstractProjectResource.MinMax | src/main/java/nl/knaw/dans/dccd/rest/AbstractProjectResource.java:431-438 | the min/max loop ends with the minimum and the maximum |
| AbstractProjectResource.AddNonNullYears | src/main/java/nl/knaw/dans/dccd/rest/AbstractProjectResource.java:396-402 | the loop appends exactly the non-null years of the list, in order |
| AbstractProjectResource.AppendProjectPublicDataAsXml | src/main/java/nl/knaw/dans/dccd/rest/AbstractProjectResource.java:126-172 | appends exactly the public-data block |
| AbstractProjectResource.AppendProjectPublicLocationAsXml | src/main/java/nl/knaw/dans/dccd/rest/AbstractProjectResource.java:183-194 | appends the location block behind its gate |
| AbstractProjectResource.AppendProjectPublicTaxonsAsXml | src/main/java/nl/knaw/dans/dccd/rest/AbstractProjectResource.java:253-262 | appends the taxons block behind its gate |
| AbstractProjectResource.AppendProjectElementTypesAsXml | src/main/java/nl/knaw/dans/dccd/rest/AbstractProjectResource.java:305-320 | appends the element-types block |
| AbstractProjectResource.AppendProjectObjectTypesAsXml | src/main/java/nl/knaw/dans/dccd/rest/AbstractProjectResource.java:322-335 | appends the object-types block |
| AbstractProjectResource.AppendProjectPublicTypesAsXml | src/main/java/nl/knaw/dans/dccd/rest/AbstractProjectResource.java:286-303 | appends the types blocks behind their gates |
| AbstractProjectResource.AppendProjectPublicDescriptionAsXml | src/main/java/nl/knaw/dans/dccd/rest/AbstractProjectResource.java:347-365 | appends the description behind its gate |
| AbstractProjectResource.AppendProjectTimeRangeAsXml | src/main/java/nl/knaw/dans/dccd/rest/AbstractProjectResource.java:390-447 | appends `<timeRange>` with the minimum and maximum of the collected years, or nothing when there are none |
| AbstractProjectResource.AppendProjectPublicTimeRangeAsXml | src/main/java/nl/knaw/dans/dccd/rest/AbstractProjectResource.java:373-382 | appends the time range behind its gate |
| AbstractProjectResource.AppendProjectPermissionAsXml | src/main/java/nl/knaw/dans/dccd/rest/AbstractProjectResource.java:216-225 | appends the permission block with the default level's entity-level name |
| AbstractProjectResource.PublicSectionsGated | src/main/java/nl/knaw/dans/dccd/rest/AbstractProjectResource.java:183-382 | each public section is non-empty exactly when its level is permitted by the default level and it has data: location (OBJECT), taxons (ELEMENT), description (PROJECT), time range (SERIES), types (OBJECT or ELEMENT) |
| AbstractProjectResource.PublicTypesAt | src/main/java/nl/knaw/dans/dccd/rest/AbstractProjectResource.java:286-303 | no types below OBJECT; only object types at OBJECT; element then object types from ELEMENT |
| AbstractProjectResource.PublicTimeRangeContent | src/main/java/nl/knaw/dans/dccd/rest/AbstractProjectResource.java:390-447 | an emitted time range has firstYear = min and lastYear = max over all collected years, with every year between them |
| AbstractProjectResource.EscapeLowerName | src/main/java/nl/knaw/dans/dccd/rest/AbstractProjectResource.java:449-453 | a lower-case ASCII name is unchanged by escaping |
| AbstractProjectResource.EntityLevelNameUnescaped | src/main/java/nl/knaw/dans/dccd/rest/AbstractProjectResource.java:216-225 | the level name in the permission block appears verbatim |
| ProjectResource.EntityLevelMapsAreInverse | src/main/java/nl/knaw/dans/dccd/rest/ProjectResource.java:156-170 | the entity-level map is the inverse of the level-to-name map without "minimal", and maps only to levels above MINIMAL |
| ProjectResource.ApplyShort | src/main/java/nl/knaw/dans/dccd/rest/ProjectResource.java:204-217 | applying one or two restriction steps is running the restrictors in that order |
| ProjectResource.TridasDecisionCases | src/main/java/nl/knaw/dans/dccd/rest/ProjectResource.java:101-126 | `/tridas`: no user gives 401; download allowed serves the tree unrestricted; otherwise viewing not allowed gives 401; otherwise the tree is restricted to the effective level and respects it |
| ProjectResource.TridasForLevelDecisionCases | src/main/java/nl/knaw/dans/dccd/rest/ProjectResource.java:174-217 | `/tridas/{level}`: an unknown level gives 404 before authentication; the 401 cases as above; download allowed ignores the requested level; otherwise the served tree respects the stricter of the requested and the effective level |
| ProjectResource.RunStep | src/main/java/nl/knaw/dans/dccd/rest/ProjectResource.java:204-217 | one restriction step changes the project into its restriction |
| ProjectResource.GetProjectTridasBySid | src/main/java/nl/knaw/dans/dccd/rest/ProjectResource.java:97-151 | the status is the decision's; a served project has the decided restrictions applied, and a refused one is untouched |
| ProjectResource.GetProjectTridasBySidForLevel | src/main/java/nl/knaw/dans/dccd/rest/ProjectResource.java:174-252 | the same for the level endpoint |
| ProjectResource.FirstUnitNamed | src/main/java/nl/knaw/dans/dccd/rest/ProjectResource.java:327-334 | a unit whose file name equals the request exactly (case-sensitive), or none exactly when there is none |
| ProjectResource.FirstUnitNamedIsFirst | src/main/java/nl/knaw/dans/dccd/rest/ProjectResource.java:327-334 | the unit found is the first such unit |
| ProjectResource.FindUnitByName | src/main/java/nl/knaw/dans/dccd/rest/ProjectResource.java:438-445 | the search loop with `break` finds that first unit |
| ProjectResource.GetFileByName | src/main/java/nl/knaw/dans/dccd/rest/ProjectResource.java:307-357 | file download: 401 without a user or without download permission, before any lookup; 404 exactly when no unit has the name; 200 with the first matching unit; 500 when authentication or the store fails |
| ProjectResource.UserPermissionsXmlAppend | src/main/java/nl/knaw/dans/dccd/rest/ProjectResource.java:502-508 | the user-permission elements of a concatenated list are the concatenation of the parts' elements |
| ProjectResource.UserPermissionsListed | src/main/java/nl/knaw/dans/dccd/rest/ProjectResource.java:499-510 | the `<userPermissions>` block is absent exactly for an empty list; each user permission adds one element with its user id and level |
| ProjectResource.PermissionLevelSpellings | src/main/java/nl/knaw/dans/dccd/rest/ProjectResource.java:497-505 | the permission endpoint spells a level differently (upper case) from the entity-level name, which the level map does not accept |
| ProjectResource.AppendPermissionHead | src/main/java/nl/knaw/dans/dccd/rest/ProjectResource.java:493-497 | appends the project id, owner id and default level |
| ProjectResource.AppendUserPermissionsBlock | src/main/java/nl/knaw/dans/dccd/rest/ProjectResource.java:499-510 | appends the block, or nothing for an empty list |
| ProjectResource.AppendUserPermission | src/main/java/nl/knaw/dans/dccd/rest/ProjectResource.java:503-506 | appends one user permission element |
| ProjectResource.AppendUserPermissions | src/main/java/nl/knaw/dans/dccd/rest/ProjectResource.java:502-508 | the loop appends one element per user permission, in order |
| ProjectResource.GetPermission | src/main/java/nl/knaw/dans/dccd/rest/ProjectResource.java:470-517 | 200 exactly for an admin or the owner of an existing project, with the permission metadata as body; 401 without a user or for anyone else; otherwise 500 with no body |
| ProjectResource.ProjectsRequestCases | src/main/java/nl/knaw/dans/dccd/rest/ProjectResource.java:547-629 | the project list is filtered to PUBLISHED, sorted by last state change descending when modFrom or modUntil is given and by PID ascending otherwise; a malformed date gives 404 |
| ProjectResource.AppendSearchResultDataAsXml | src/main/java/nl/knaw/dans/dccd/rest/ProjectResource.java:724-741 | appends the public sections in order, then the permission block |
| ProjectResource.ProjectsXmlAppend | src/main/java/nl/knaw/dans/dccd/rest/AbstractProjectResource.java:94-98 | the `<project>` elements of a concatenated list are the concatenation of the parts' elements |
| ProjectResource.ProjectsXmlPush | src/main/java/nl/knaw/dans/dccd/rest/AbstractProjectResource.java:94-98 | one more hit adds exactly one `<project>` element at the end |
| ProjectResource.ProjectsXmlOne | src/main/java/nl/knaw/dans/dccd/rest/AbstractProjectResource.java:94-98 | one hit gives `<project>` + its data + `</project>` |
| ProjectResource.RenderedHits | src/main/java/nl/knaw/dans/dccd/rest/AbstractProjectResource.java:94-98 | one rendered data string per hit |
| ProjectResource.RenderedHitsNext | src/main/java/nl/knaw/dans/dccd/rest/AbstractProjectResource.java:94-98 | the rendering keeps hit order: the next hit's data follows those of the earlier hits |
| ProjectResource.AppendProject | src/main/java/nl/knaw/dans/dccd/rest/AbstractProjectResource.java:95-97 | appends one `<project>` element holding the hit's data |
| ProjectResource.AppendNextProject | src/main/java/nl/knaw/dans/dccd/rest/AbstractProjectResource.java:94-98 | one round of the hit loop extends the list by the next hit |
| ProjectResource.AppendProjects | src/main/java/nl/knaw/dans/dccd/rest/AbstractProjectResource.java:94-98 | the loop appends one `<project>` per hit, in hit order |
| ProjectResource.GetProjectListSearchResultAsXml | src/main/java/nl/knaw/dans/dccd/rest/AbstractProjectResource.java:83-101 | the XML instruction, `<projects total offset limit>`, one `<project>` per hit in hit order, then `</projects>` |
| ProjectResource.ProjectXmlIsListElement | src/main/java/nl/knaw/dans/dccd/rest/ProjectResource.java:705-714 | a single project renders as the one element a list holding just that hit would carry |
| ProjectResource.GetProjectSearchResultAsXml | src/main/java/nl/knaw/dans/dccd/rest/ProjectResource.java:705-714 | the XML instruction followed by the hit's `<project>` element |
| TimeTestData.Written | python-tests/create_timetestdata.py:152-160 | the written year is at least 1, with suffix BC exactly for astronomical years up to 0 |
| TimeTestData.WrittenRoundTrip | python-tests/create_timetestdata.py:152-160 | AD y means y and BC y means 1-y, which gives back the astronomical year |
| TimeTestData.AstronomicalRoundTrip | python-tests/create_timetestdata.py:152-160 | every written year of at least 1 is the writing of exactly one astronomical year |
| TimeTestData.WrittenSuccessor | python-tests/create_timetestdata.py:153-160 | consecutive years are written consecutively: BC years count down to 1 BC, which is followed by 1 AD (no year zero), and AD years count up |
| TimeTestData.ProjectYears | python-tests/create_timetestdata.py:212-214 | firstYear lies in [-1500, 1500] and lastYear - firstYear in [100, 150] |
| TimeTestData.EveryRangeCanBeDrawn | python-tests/create_timetestdata.py:212-214 | every range with those bounds can be drawn, so the bounds are tight |
| TimeTestData.WrittenRangeOrder | python-tests/create_timetestdata.py:152-160 | in a generated range the last year is never BC while the first is AD, and a BC last year is written smaller than a BC first year |

## Left out

- JAXB marshalling of the restricted tree, response building, content negotiation (XML or JSON) and Basic-auth decoding are framework calls. The endpoints' status codes and decisions are modelled; authentication and the access rights come in as values.
- The search, data and user services are left out. The project-list endpoint is modelled as the request it builds (`ProjectsRequest`) and the XML it writes from the hits. `getProjectByStoreId` is only its XML body.
- The date parsing and the query construction of `addFilterQueryForModified` are left out. A date parameter is absent, well-formed or malformed, and the modified period is only present or absent.
- The state-change date in the public data is taken pre-formatted. Date formatting and the `toString` of latitude and longitude are library calls.
- Record fields that Java would render as the text "null" are modelled as present strings.
- `ProjectPermissionLevel.valueOf` on an unknown stored level (an exception) is out of scope: the default level is always one of the eight.
- The associated- and original-file listing endpoints (`ProjectResource.java` 258-291 and 369-402) are left out: they are XML assembly over service data. The file download is modelled once for both file kinds. Reading the bytes (an IOException gives 500) is left out.
- `FileExtractor.unzip`, `createTempDir`, the creation and cleanup of the import folders, DOM/XPath parsing, the raw-file parser, the TRiDaS parser and `EntityTree.buildTree` are I/O or foreign code. Their results are parameters.
- `logProjectImport` has an empty body, so there is nothing to model.
- Below the project, the TRiDaS entities are values that the restrictors rebuild and store back. The model does not capture aliasing between entities shared by two parents: the source mutates them in place, so a shared entity would be restricted twice.
- DccdProjectImporter.ImportTridasFile: `addOriginalFile` re-reads the TRiDaS file just parsed; an IOException there (the file vanishing or becoming unreadable in between) is not modelled.
- DccdProjectImporter.ImportDataFile: `addOriginalFile` on a values file just loaded (lines 327 and 375) can also throw an IOException on re-reading; that failure is not modelled.
- DccdProjectImporter.ImportAssociatedFiles: a regular file that exists but cannot be read is taken to be added; names holding a path separator, which would point into sub-folders, are looked up only among the associated folder's own entries.
- DccdProjectImporter.LocaleLanguage: the Java 17 and later behaviour, which keeps "he", "yi" and "id" as given, is not modelled.
- XmlStringUtil.Escape: a Java string can hold a lone surrogate, which `escapeXml` writes as one reference; a Dafny `char` cannot hold one, so such strings are outside the model.
- DccdProjectImporter.ImportDataFile: its ensures does not repeat the merge's effect on the series' values. That effect is stated by `AddDataToSeriesEntity`, which it calls.
- DccdProjectImporter.ImportSeriesList, ImportValueFiles, ImportParsedProject, ImportBundle, ImportProject: they require the series of a project to be distinct objects with distinct values blocks. Their frame is a ghost set of values blocks. The source assumes this shape without checking it.
- DccdProjectImporter.ImportBundle: it states the outcome's kind, the recorded header and the success value. The files recorded are stated one level down by `ImportParsedProject`.
- ProjectResource.RenderedHits: no lemma gives the i-th rendered string directly. Order is stated through `RenderedHitsNext`.
- Case-insensitive comparison folds ASCII letters only. Java's `compareToIgnoreCase` also folds other alphabets.
- In the time test-data generator, the float latitude and longitude and the writing of the zip files are left out.

## Findings

| source | as written | input that shows it | evidently intended | confidence | as-written member | corrected member |
|---|---|---|---|---|---|---|
| src/main/java/nl/knaw/dans/dccd/rest/tridas/TridasPermissionRestrictor.java:289-291 | the values label is looked up with `values.getClass()`, the runtime class of the list, which is not a key of the display-string map, so the label is null | a measurement or derived series with one values block, restricted at any level below VALUES: its placeholder reads `"(null) 1 of 1 "` | the key `TridasValues.class`, giving `"(values) 1 of 1 "` | high, not executed | Restriction.ValuesPlaceholderSaysNull | Restriction.RestrictedSeries |
| src/main/java/nl/knaw/dans/dccd/rest/archival/DccdProjectImporter.java:78-84 | with no xml file next to the project folder, `getArchivalMetaDataFile` returns null and `DocumentBuilder.parse(null)` throws an IllegalArgumentException that none of the catch clauses handle, so the import aborts | a bundle whose parent folder holds only the `data` folder | the defaults "Heidelberg" and "en", as for an unreadable file (the comment at line 114 says failures are ignored) | medium, not executed | DccdProjectImporter.NoMetadataFileAborts | DccdProjectImporter.LoadMetadata |
