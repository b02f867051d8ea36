/**
 * `AbstractProjectResource`: how a project's search record is rendered as
 * XML for the public project listings, with every section past the basic
 * data gated by the project's default permission level.
 *
 * The search record (`DccdSB`) is a value; the rendering appends to a
 * `StringWriter`, modelled as the class `Writer`.  Every append method is
 * proved to add exactly the text a specification function describes, and
 * the gates and the time range are proved about those functions.
 */
module AbstractProjectResource {
  import opened Wrappers
  import opened Text
  import opened PermissionLevel
  import opened XmlStringUtil

  /**
   * The fields of a project's search record that the rendering reads.
   * `stateChanged` is the last state change already printed as an ISO date
   * in UTC; `ownerOrganizationId` and `language` are what the user service
   * and the data archive answer for the project.  A latitude/longitude pair
   * is present exactly when `hasLatLng` holds.  A missing interpretation
   * year list is `None`, a missing year inside a list is `None` too.
   */
  datatype SearchRecord = SearchRecord(
    pid: string,
    stateChanged: string,
    title: string,
    identifier: string,
    category: string,
    investigator: string,
    laboratories: seq<string>,
    projectTypes: seq<string>,
    ownerOrganizationId: string,
    language: string,
    defaultLevel: Level,
    latLng: Option<(string, string)>,
    elementTaxons: seq<string>,
    elementTypes: seq<string>,
    objectTypes: seq<string>,
    description: Option<string>,
    pithYears: Option<seq<Option<int>>>,
    firstYears: Option<seq<Option<int>>>,
    lastYears: Option<seq<Option<int>>>,
    deathYears: Option<seq<Option<int>>>)

  /** A `StringWriter`: text is only ever appended. */
  class Writer {
    var text: string

    constructor ()
      ensures text == []
    {
      text := [];
    }

    method Append(s: string)
      modifies this
      ensures text == old(text) + s
    {
      text := text + s;
    }
  }

  // --- MAP_PERMISSION_TO_ENTITYLEVEL ---------------------------------------

  /** `MAP_PERMISSION_TO_ENTITYLEVEL.get(l)`: the level's name as the API spells it. */
  function EntityLevelName(l: Level): string
  {
    match l
    case MINIMAL => "minimal"
    case PROJECT => "project"
    case OBJECT => "object"
    case ELEMENT => "element"
    case SAMPLE => "sample"
    case RADIUS => "radius"
    case SERIES => "series"
    case VALUES => "values"
  }

  /** The entity-level name is the enum constant's name in lower case, letter by letter. */
  lemma LowerCaseOfName(a: Level)
    ensures EntityLevelName(a) == LowerCase(Name(a))
  {
    var n, e := Name(a), EntityLevelName(a);
    match a
    case MINIMAL => LowerCaseIs(n, e);
    case PROJECT => LowerCaseIs(n, e);
    case OBJECT => LowerCaseIs(n, e);
    case ELEMENT => LowerCaseIs(n, e);
    case SAMPLE => LowerCaseIs(n, e);
    case RADIUS => LowerCaseIs(n, e);
    case SERIES => LowerCaseIs(n, e);
    case VALUES => LowerCaseIs(n, e);
  }

  /**
   * Every level has its own entity-level name, and that name is the enum
   * constant's name in lower case.
   */
  lemma EntityLevelNamesDistinct(a: Level, b: Level)
    ensures EntityLevelName(a) == EntityLevelName(b) ==> a == b
    ensures EntityLevelName(a) == LowerCase(Name(a))
  {
    LowerCaseOfName(a);
  }

  // --- the permission gates ------------------------------------------------

  /** The location is shown when the default level opens the object layer. */
  predicate LocationVisible(defaultLevel: Level)
  {
    IsPermittedBy(OBJECT, defaultLevel)
  }

  /** Taxons are shown when the default level opens the element layer. */
  predicate TaxonsVisible(defaultLevel: Level)
  {
    IsPermittedBy(ELEMENT, defaultLevel)
  }

  /** The project description is shown when the default level opens the project layer. */
  predicate DescriptionVisible(defaultLevel: Level)
  {
    IsPermittedBy(PROJECT, defaultLevel)
  }

  /** The time range is shown when the default level opens the series layer. */
  predicate TimeRangeVisible(defaultLevel: Level)
  {
    IsPermittedBy(SERIES, defaultLevel)
  }

  /** Which of the two type lists are shown. */
  datatype TypesShown = NoTypes | ObjectTypesOnly | ElementAndObjectTypes

  function TypesShownAt(defaultLevel: Level): TypesShown
  {
    if IsPermittedBy(ELEMENT, defaultLevel) then ElementAndObjectTypes
    else if IsPermittedBy(OBJECT, defaultLevel) then ObjectTypesOnly
    else NoTypes
  }

  /** The gates, level by level. */
  lemma GatesAt(l: Level)
    ensures DescriptionVisible(l) <==> l != MINIMAL
    ensures LocationVisible(l) <==> l != MINIMAL && l != PROJECT
    ensures TaxonsVisible(l) <==> l != MINIMAL && l != PROJECT && l != OBJECT
    ensures TimeRangeVisible(l) <==> l == SERIES || l == VALUES
    ensures TypesShownAt(l) == NoTypes <==> l == MINIMAL || l == PROJECT
    ensures TypesShownAt(l) == ObjectTypesOnly <==> l == OBJECT
  {
  }

  /**
   * Opening a project further never hides a section: each gate that is open
   * at `a` is open at any level that permits `a`, and the type lists shown
   * only grow.
   */
  lemma GatesMonotone(a: Level, b: Level)
    requires IsPermittedBy(a, b)
    ensures DescriptionVisible(a) ==> DescriptionVisible(b)
    ensures LocationVisible(a) ==> LocationVisible(b)
    ensures TaxonsVisible(a) ==> TaxonsVisible(b)
    ensures TimeRangeVisible(a) ==> TimeRangeVisible(b)
    ensures TypesShownAt(a) == ObjectTypesOnly ==> TypesShownAt(b) != NoTypes
    ensures TypesShownAt(a) == ElementAndObjectTypes ==> TypesShownAt(b) == ElementAndObjectTypes
  {
  }

  // --- element lists -------------------------------------------------------

  /** One element per value, in order: what the loops over a list of strings append. */
  function ElementsOf(tagname: string, values: seq<string>): string
  {
    if values == [] then [] else ElementsOf(tagname, values[..|values| - 1]) + ElementString(tagname, values[|values| - 1])
  }

  /** Rendering a list is rendering its parts one after the other. */
  lemma {:induction false} ElementsOfAppend(tagname: string, a: seq<string>, b: seq<string>)
    ensures ElementsOf(tagname, a + b) == ElementsOf(tagname, a) + ElementsOf(tagname, b)
    decreases |b|
  {
    if b == [] {
      assert a + b == a;
    } else {
      var n := |b| - 1;
      assert (a + b)[..|a + b| - 1] == a + b[..n];
      assert (a + b)[|a + b| - 1] == b[n];
      ElementsOfAppend(tagname, a, b[..n]);
      AppendAssociative(ElementsOf(tagname, a), ElementsOf(tagname, b[..n]), ElementString(tagname, b[n]));
    }
  }

  /** Rendering one more value adds its element at the end. */
  lemma ElementsOfSnoc(tagname: string, values: seq<string>, i: nat)
    requires i < |values|
    ensures ElementsOf(tagname, values[..i + 1]) == ElementsOf(tagname, values[..i]) + ElementString(tagname, values[i])
  {
    assert values[..i + 1][..i] == values[..i];
  }

  /** One element per value, each with the escaped value between `<tagname>` and `</tagname>`. */
  lemma ElementsOfOne(tagname: string, v: string)
    ensures ElementsOf(tagname, [v]) == "<" + tagname + ">" + Escape(v) + "</" + tagname + ">"
  {
    assert [v][..0] == [];
  }

  /** Appends one element per value, in order. */
  method AppendElements(sw: Writer, tagname: string, values: seq<string>)
    modifies sw
    ensures sw.text == old(sw.text) + ElementsOf(tagname, values)
  {
    ghost var t0 := sw.text;
    for i := 0 to |values|
      invariant sw.text == t0 + ElementsOf(tagname, values[..i])
    {
      ghost var acc := ElementsOf(tagname, values[..i]);
      var element := ElementString(tagname, values[i]);
      sw.Append(element);
      AppendAssociative(t0, acc, element);
      ElementsOfSnoc(tagname, values, i);
    }
    assert values[..|values|] == values;
  }

  // --- StringUtil.getUniqueStrings -----------------------------------------

  /**
   * The list without repetitions, each string where it first occurs.
   * (`StringUtil` is not part of this model; this is what its name and its
   * use, "avoid duplicates", promise.)
   */
  function UniqueStrings(s: seq<string>): (u: seq<string>)
    ensures forall x :: x in u <==> x in s
    ensures forall i, j :: 0 <= i < j < |u| ==> u[i] != u[j]
  {
    if s == [] then []
    else
      var u := UniqueStrings(s[..|s| - 1]);
      assert forall x :: x in s <==> x in s[..|s| - 1] || x == s[|s| - 1];
      if s[|s| - 1] in u then u else u + [s[|s| - 1]]
  }

  // --- the sections --------------------------------------------------------

  /** `appendProjectPublicDataAsXml`: what anyone may see, whatever the level. */
  function PublicDataXml(sb: SearchRecord): string
  {
    ElementString("sid", sb.pid)
    + ElementString("stateChanged", sb.stateChanged)
    + ElementString("title", sb.title)
    + ElementString("identifier", sb.identifier)
    + ElementString("category", sb.category)
    + ElementString("investigator", sb.investigator)
    + "<laboratories>" + ElementsOf("laboratory", sb.laboratories) + "</laboratories>"
    + "<types>" + ElementsOf("type", sb.projectTypes) + "</types>"
    + ElementString("ownerOrganizationId", sb.ownerOrganizationId)
    + ElementString("language", sb.language)
  }

  /** `appendProjectLocationAsXml`: the coordinates, when the record has them. */
  function LocationXml(sb: SearchRecord): string
  {
    if sb.latLng.Some? then
      "<location>" + ElementString("lat", sb.latLng.value.0) + ElementString("lng", sb.latLng.value.1) + "</location>"
    else ""
  }

  function PublicLocationXml(sb: SearchRecord): string
  {
    if LocationVisible(sb.defaultLevel) then LocationXml(sb) else ""
  }

  /** `appendProjectTaxonsAsXml`: the distinct taxons, when there are any. */
  function TaxonsXml(sb: SearchRecord): string
  {
    if sb.elementTaxons != [] then
      "<taxons>" + ElementsOf("taxon", UniqueStrings(sb.elementTaxons)) + "</taxons>"
    else ""
  }

  function PublicTaxonsXml(sb: SearchRecord): string
  {
    if TaxonsVisible(sb.defaultLevel) then TaxonsXml(sb) else ""
  }

  function ElementTypesXml(sb: SearchRecord): string
  {
    if sb.elementTypes != [] then
      "<elementTypes>" + ElementsOf("elementType", UniqueStrings(sb.elementTypes)) + "</elementTypes>"
    else ""
  }

  function ObjectTypesXml(sb: SearchRecord): string
  {
    if sb.objectTypes != [] then
      "<objectTypes>" + ElementsOf("objectType", UniqueStrings(sb.objectTypes)) + "</objectTypes>"
    else ""
  }

  /** `appendProjectPublicTypesAsXml`: element types before object types. */
  function PublicTypesXml(sb: SearchRecord): string
  {
    match TypesShownAt(sb.defaultLevel)
    case ElementAndObjectTypes => ElementTypesXml(sb) + ObjectTypesXml(sb)
    case ObjectTypesOnly => ObjectTypesXml(sb)
    case NoTypes => ""
  }

  function DescriptionXml(sb: SearchRecord): string
  {
    if sb.description.Some? then ElementString("description", sb.description.value) else ""
  }

  function PublicDescriptionXml(sb: SearchRecord): string
  {
    if DescriptionVisible(sb.defaultLevel) then DescriptionXml(sb) else ""
  }

  // --- the time range ------------------------------------------------------

  /** The present years of a list, in order. */
  function PresentYears(list: seq<Option<int>>): (years: seq<int>)
    ensures forall y :: y in years <==> Some(y) in list
  {
    if list == [] then []
    else
      var init := list[..|list| - 1];
      var last := list[|list| - 1];
      assert forall o :: o in list <==> o in init || o == last;
      PresentYears(init) + (if last.Some? then [last.value] else [])
  }

  /** The years of a list that may be missing, skipping missing entries, in order. */
  function NonNullYears(list: Option<seq<Option<int>>>): (years: seq<int>)
    ensures forall y :: y in years <==> list.Some? && Some(y) in list.value
  {
    if list.None? then [] else PresentYears(list.value)
  }

  /** All interpretation years of a record: pith, first, last, then death years. */
  function Years(sb: SearchRecord): seq<int>
  {
    NonNullYears(sb.pithYears) + NonNullYears(sb.firstYears)
    + NonNullYears(sb.lastYears) + NonNullYears(sb.deathYears)
  }

  /** A year is collected exactly when it is present in one of the four lists. */
  lemma YearsCollected(sb: SearchRecord, y: int)
    ensures y in Years(sb) <==>
      || (sb.pithYears.Some? && Some(y) in sb.pithYears.value)
      || (sb.firstYears.Some? && Some(y) in sb.firstYears.value)
      || (sb.lastYears.Some? && Some(y) in sb.lastYears.value)
      || (sb.deathYears.Some? && Some(y) in sb.deathYears.value)
  {
  }

  /** The least year. */
  function MinYear(years: seq<int>): (m: int)
    requires years != []
    ensures m in years
    ensures forall y :: y in years ==> m <= y
  {
    if |years| == 1 then years[0]
    else
      var m := MinYear(years[..|years| - 1]);
      assert forall y :: y in years ==> y in years[..|years| - 1] || y == years[|years| - 1];
      if years[|years| - 1] < m then years[|years| - 1] else m
  }

  /** The greatest year. */
  function MaxYear(years: seq<int>): (m: int)
    requires years != []
    ensures m in years
    ensures forall y :: y in years ==> y <= m
  {
    if |years| == 1 then years[0]
    else
      var m := MaxYear(years[..|years| - 1]);
      assert forall y :: y in years ==> y in years[..|years| - 1] || y == years[|years| - 1];
      if years[|years| - 1] > m then years[|years| - 1] else m
  }

  /** `<timeRange>` with the least and the greatest year; nothing when there are no years. */
  function TimeRangeXml(years: seq<int>): string
  {
    if years == [] then ""
    else
      "<timeRange>" + ElementString("firstYear", IntToString(MinYear(years)))
      + ElementString("lastYear", IntToString(MaxYear(years))) + "</timeRange>"
  }

  function PublicTimeRangeXml(sb: SearchRecord): string
  {
    if TimeRangeVisible(sb.defaultLevel) then TimeRangeXml(Years(sb)) else ""
  }

  /** The first year never exceeds the last year, and both are among the years. */
  lemma TimeRangeOrdered(years: seq<int>)
    requires years != []
    ensures MinYear(years) <= MaxYear(years)
    ensures MinYear(years) in years && MaxYear(years) in years
  {
    assert years[0] in years;
  }

  /** The loop that starts from the first year and widens the range year by year. */
  method MinMax(years: seq<int>) returns (min: int, max: int)
    requires years != []
    ensures min == MinYear(years) && max == MaxYear(years)
  {
    min := years[0];
    max := min;
    var i := 1;
    while i < |years|
      invariant 1 <= i <= |years|
      invariant min in years[..i] && max in years[..i]
      invariant forall y :: y in years[..i] ==> min <= y <= max
    {
      assert years[..i + 1] == years[..i] + [years[i]];
      if years[i] < min {
        min := years[i];
      }
      if years[i] > max {
        max := years[i];
      }
      i := i + 1;
    }
    assert years[..i] == years;
  }

  /** Appends the present years of one list to `years`, skipping the missing ones. */
  method AddNonNullYears(years: seq<int>, list: Option<seq<Option<int>>>) returns (res: seq<int>)
    ensures res == years + NonNullYears(list)
  {
    res := years;
    if list.Some? {
      var yearsFromTridas := list.value;
      for i := 0 to |yearsFromTridas|
        invariant res == years + PresentYears(yearsFromTridas[..i])
      {
        assert yearsFromTridas[..i + 1][..i] == yearsFromTridas[..i];
        if yearsFromTridas[i].Some? {
          res := res + [yearsFromTridas[i].value];
        }
      }
      assert yearsFromTridas[..|yearsFromTridas|] == yearsFromTridas;
    }
  }

  // --- the append methods --------------------------------------------------

  /**
   * The append methods keep `sw.text == t0 + acc`, where `t0` is the text
   * before the call and `acc` what has been appended so far; each append
   * is followed by regrouping the concatenation.
   */
  method AppendProjectPublicDataAsXml(sw: Writer, sb: SearchRecord)
    modifies sw
    ensures sw.text == old(sw.text) + PublicDataXml(sb)
  {
    ghost var t0 := sw.text;
    sw.Append(ElementString("sid", sb.pid));
    ghost var acc := ElementString("sid", sb.pid);
    sw.Append(ElementString("stateChanged", sb.stateChanged));
    AppendAssociative(t0, acc, ElementString("stateChanged", sb.stateChanged));
    acc := acc + ElementString("stateChanged", sb.stateChanged);
    sw.Append(ElementString("title", sb.title));
    AppendAssociative(t0, acc, ElementString("title", sb.title));
    acc := acc + ElementString("title", sb.title);
    sw.Append(ElementString("identifier", sb.identifier));
    AppendAssociative(t0, acc, ElementString("identifier", sb.identifier));
    acc := acc + ElementString("identifier", sb.identifier);
    sw.Append(ElementString("category", sb.category));
    AppendAssociative(t0, acc, ElementString("category", sb.category));
    acc := acc + ElementString("category", sb.category);
    sw.Append(ElementString("investigator", sb.investigator));
    AppendAssociative(t0, acc, ElementString("investigator", sb.investigator));
    acc := acc + ElementString("investigator", sb.investigator);
    sw.Append("<laboratories>");
    AppendAssociative(t0, acc, "<laboratories>");
    acc := acc + "<laboratories>";
    AppendElements(sw, "laboratory", sb.laboratories);
    AppendAssociative(t0, acc, ElementsOf("laboratory", sb.laboratories));
    acc := acc + ElementsOf("laboratory", sb.laboratories);
    sw.Append("</laboratories>");
    AppendAssociative(t0, acc, "</laboratories>");
    acc := acc + "</laboratories>";
    sw.Append("<types>");
    AppendAssociative(t0, acc, "<types>");
    acc := acc + "<types>";
    AppendElements(sw, "type", sb.projectTypes);
    AppendAssociative(t0, acc, ElementsOf("type", sb.projectTypes));
    acc := acc + ElementsOf("type", sb.projectTypes);
    sw.Append("</types>");
    AppendAssociative(t0, acc, "</types>");
    acc := acc + "</types>";
    sw.Append(ElementString("ownerOrganizationId", sb.ownerOrganizationId));
    AppendAssociative(t0, acc, ElementString("ownerOrganizationId", sb.ownerOrganizationId));
    acc := acc + ElementString("ownerOrganizationId", sb.ownerOrganizationId);
    sw.Append(ElementString("language", sb.language));
    AppendAssociative(t0, acc, ElementString("language", sb.language));
  }

  method AppendProjectPublicLocationAsXml(sw: Writer, sb: SearchRecord)
    modifies sw
    ensures sw.text == old(sw.text) + PublicLocationXml(sb)
  {
    if IsPermittedBy(OBJECT, sb.defaultLevel) && sb.latLng.Some? {
      ghost var t0 := sw.text;
      var lat := ElementString("lat", sb.latLng.value.0);
      var lng := ElementString("lng", sb.latLng.value.1);
      sw.Append("<location>");
      sw.Append(lat);
      AppendAssociative(t0, "<location>", lat);
      sw.Append(lng);
      AppendAssociative(t0, "<location>" + lat, lng);
      sw.Append("</location>");
      AppendAssociative(t0, "<location>" + lat + lng, "</location>");
    }
  }

  method AppendProjectPublicTaxonsAsXml(sw: Writer, sb: SearchRecord)
    modifies sw
    ensures sw.text == old(sw.text) + PublicTaxonsXml(sb)
  {
    if IsPermittedBy(ELEMENT, sb.defaultLevel) && sb.elementTaxons != [] {
      ghost var t0 := sw.text;
      var taxons := UniqueStrings(sb.elementTaxons);
      sw.Append("<taxons>");
      AppendElements(sw, "taxon", taxons);
      AppendAssociative(t0, "<taxons>", ElementsOf("taxon", taxons));
      sw.Append("</taxons>");
      AppendAssociative(t0, "<taxons>" + ElementsOf("taxon", taxons), "</taxons>");
    }
  }

  method AppendProjectElementTypesAsXml(sw: Writer, sb: SearchRecord)
    modifies sw
    ensures sw.text == old(sw.text) + ElementTypesXml(sb)
  {
    if sb.elementTypes != [] {
      ghost var t0 := sw.text;
      var types := UniqueStrings(sb.elementTypes);
      sw.Append("<elementTypes>");
      AppendElements(sw, "elementType", types);
      AppendAssociative(t0, "<elementTypes>", ElementsOf("elementType", types));
      sw.Append("</elementTypes>");
      AppendAssociative(t0, "<elementTypes>" + ElementsOf("elementType", types), "</elementTypes>");
    }
  }

  method AppendProjectObjectTypesAsXml(sw: Writer, sb: SearchRecord)
    modifies sw
    ensures sw.text == old(sw.text) + ObjectTypesXml(sb)
  {
    if sb.objectTypes != [] {
      ghost var t0 := sw.text;
      var types := UniqueStrings(sb.objectTypes);
      sw.Append("<objectTypes>");
      AppendElements(sw, "objectType", types);
      AppendAssociative(t0, "<objectTypes>", ElementsOf("objectType", types));
      sw.Append("</objectTypes>");
      AppendAssociative(t0, "<objectTypes>" + ElementsOf("objectType", types), "</objectTypes>");
    }
  }

  method AppendProjectPublicTypesAsXml(sw: Writer, sb: SearchRecord)
    modifies sw
    ensures sw.text == old(sw.text) + PublicTypesXml(sb)
  {
    if IsPermittedBy(ELEMENT, sb.defaultLevel) {
      ghost var t0 := sw.text;
      AppendProjectElementTypesAsXml(sw, sb);
      AppendProjectObjectTypesAsXml(sw, sb);
      AppendAssociative(t0, ElementTypesXml(sb), ObjectTypesXml(sb));
    } else if IsPermittedBy(OBJECT, sb.defaultLevel) {
      AppendProjectObjectTypesAsXml(sw, sb);
    }
  }

  method AppendProjectPublicDescriptionAsXml(sw: Writer, sb: SearchRecord)
    modifies sw
    ensures sw.text == old(sw.text) + PublicDescriptionXml(sb)
  {
    if IsPermittedBy(PROJECT, sb.defaultLevel) && sb.description.Some? {
      sw.Append(ElementString("description", sb.description.value));
    }
  }

  /** `appendProjectTimeRangeAsXml`: collect the years, then find their range in one pass. */
  method AppendProjectTimeRangeAsXml(sw: Writer, sb: SearchRecord)
    modifies sw
    ensures sw.text == old(sw.text) + TimeRangeXml(Years(sb))
  {
    var years := [];
    years := AddNonNullYears(years, sb.pithYears);
    years := AddNonNullYears(years, sb.firstYears);
    years := AddNonNullYears(years, sb.lastYears);
    years := AddNonNullYears(years, sb.deathYears);
    assert years == Years(sb);
    if years != [] {
      var min, max := MinMax(years);
      ghost var t0 := sw.text;
      var first := ElementString("firstYear", IntToString(min));
      var last := ElementString("lastYear", IntToString(max));
      sw.Append("<timeRange>");
      sw.Append(first);
      AppendAssociative(t0, "<timeRange>", first);
      sw.Append(last);
      AppendAssociative(t0, "<timeRange>" + first, last);
      sw.Append("</timeRange>");
      AppendAssociative(t0, "<timeRange>" + first + last, "</timeRange>");
    }
  }

  method AppendProjectPublicTimeRangeAsXml(sw: Writer, sb: SearchRecord)
    modifies sw
    ensures sw.text == old(sw.text) + PublicTimeRangeXml(sb)
  {
    if IsPermittedBy(SERIES, sb.defaultLevel) {
      AppendProjectTimeRangeAsXml(sw, sb);
    }
  }

  /** `appendProjectPermissionAsXml`: only the default level, by its entity-level name. */
  function PermissionXml(sb: SearchRecord): string
  {
    "<permission>" + ElementString("defaultLevel", EntityLevelName(sb.defaultLevel)) + "</permission>"
  }

  method AppendProjectPermissionAsXml(sw: Writer, sb: SearchRecord)
    modifies sw
    ensures sw.text == old(sw.text) + PermissionXml(sb)
  {
    ghost var t0 := sw.text;
    var level := ElementString("defaultLevel", EntityLevelName(sb.defaultLevel));
    sw.Append("<permission>");
    sw.Append(level);
    AppendAssociative(t0, "<permission>", level);
    sw.Append("</permission>");
    AppendAssociative(t0, "<permission>" + level, "</permission>");
  }

  // --- what the gates guarantee --------------------------------------------

  /**
   * A gated section appears exactly when its gate is open and the record
   * has something to show in it.
   */
  lemma PublicSectionsGated(sb: SearchRecord)
    ensures PublicLocationXml(sb) != [] <==> IsPermittedBy(OBJECT, sb.defaultLevel) && sb.latLng.Some?
    ensures PublicTaxonsXml(sb) != [] <==> IsPermittedBy(ELEMENT, sb.defaultLevel) && sb.elementTaxons != []
    ensures PublicDescriptionXml(sb) != [] <==> IsPermittedBy(PROJECT, sb.defaultLevel) && sb.description.Some?
    ensures PublicTimeRangeXml(sb) != [] <==> IsPermittedBy(SERIES, sb.defaultLevel) && Years(sb) != []
    ensures PublicTypesXml(sb) != [] <==>
      || (IsPermittedBy(OBJECT, sb.defaultLevel) && sb.objectTypes != [])
      || (IsPermittedBy(ELEMENT, sb.defaultLevel) && sb.elementTypes != [])
  {
  }

  /** Element types are shown only from the element level on, object types from the object level on. */
  lemma PublicTypesAt(sb: SearchRecord)
    ensures !IsPermittedBy(OBJECT, sb.defaultLevel) ==> PublicTypesXml(sb) == []
    ensures IsPermittedBy(OBJECT, sb.defaultLevel) && !IsPermittedBy(ELEMENT, sb.defaultLevel) ==>
      PublicTypesXml(sb) == ObjectTypesXml(sb)
    ensures IsPermittedBy(ELEMENT, sb.defaultLevel) ==>
      PublicTypesXml(sb) == ElementTypesXml(sb) + ObjectTypesXml(sb)
  {
  }

  /**
   * The time range, when shown, is the least and the greatest of the
   * collected years, in that order.
   */
  lemma PublicTimeRangeContent(sb: SearchRecord)
    ensures PublicTimeRangeXml(sb) != [] ==>
      var years := Years(sb);
      && years != []
      && PublicTimeRangeXml(sb) ==
        "<timeRange>" + ElementString("firstYear", IntToString(MinYear(years)))
        + ElementString("lastYear", IntToString(MaxYear(years))) + "</timeRange>"
      && MinYear(years) <= MaxYear(years)
      && forall y :: y in years ==> MinYear(years) <= y <= MaxYear(years)
  {
    if PublicTimeRangeXml(sb) != [] {
      TimeRangeOrdered(Years(sb));
    }
  }

  /** Entity-level names hold only lower-case letters, which escaping leaves alone. */
  lemma {:induction false} EscapeLowerName(name: string)
    requires forall i :: 0 <= i < |name| ==> 'a' <= name[i] <= 'z'
    ensures Escape(name) == name
    decreases |name|
  {
    if name != [] {
      EscapeLowerName(name[1..]);
    }
  }

  /**
   * Escaping leaves every entity-level name as it is, so the permission
   * block shows the name itself.
   */
  lemma EntityLevelNameUnescaped(l: Level)
    ensures Escape(EntityLevelName(l)) == EntityLevelName(l)
  {
    var name := EntityLevelName(l);
    assert forall i :: 0 <= i < |name| ==> 'a' <= name[i] <= 'z';
    EscapeLowerName(name);
  }
}
