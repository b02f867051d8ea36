/**
 * What the two TRiDaS restrictors do to a tree, as functions on the
 * snapshot values of module Tridas, and what that guarantees.
 *
 * `TridasRequestedLevelRestrictor` extends `TridasPermissionRestrictor` and
 * overrides the note and placeholder wording and the project-level switch;
 * the inherited per-layer descent calls the overridden constructors.  That
 * virtual dispatch is the `Restrictor` parameter below.
 */
module Restriction {
  import opened Wrappers
  import opened Text
  import opened PermissionLevel
  import opened Tridas

  const INCOMPLETE_TRIDAS_NOTE_GENERICFIELD_NAME: string := "dccd.incompleteTridasNote"
  const INCOMPLETE_TRIDAS_ENTITY_PLACEHOLDER_GENERICFIELD_NAME: string := "dccd.incompleteTridas.entityPlaceholder"

  /** Which restrictor class is at work. */
  datatype Restrictor = PermissionRestrictor | RequestedLevelRestrictor

  /**
   * The Java classes that serve as keys of `MAP_ENTITY_TO_DISPLAYSTRING`,
   * plus `ValuesListClass`, the runtime class of the list a series'
   * `getValues()` returns.
   */
  datatype EntityClass =
    | ProjectClass | ObjectClass | ElementClass | SampleClass | RadiusClass
    | MeasurementSeriesClass | DerivedSeriesClass | ValuesClass | ValuesListClass

  const MAP_ENTITY_TO_DISPLAYSTRING: map<EntityClass, string> := map[
    ProjectClass := "project",
    ObjectClass := "object",
    ElementClass := "element",
    SampleClass := "sample",
    RadiusClass := "radius",
    MeasurementSeriesClass := "measurementSeries",
    DerivedSeriesClass := "derivedSeries",
    ValuesClass := "values"]

  /** `MAP_ENTITY_TO_DISPLAYSTRING.get(c)`: null for a class that is not a key. */
  function DisplayString(c: EntityClass): Option<string>
  {
    if c in MAP_ENTITY_TO_DISPLAYSTRING then Some(MAP_ENTITY_TO_DISPLAYSTRING[c]) else None
  }

  /** Every TRiDaS entity class has its own display string; the runtime list class has none. */
  lemma DisplayStringsDistinct(a: EntityClass, b: EntityClass)
    ensures a != ValuesListClass ==> DisplayString(a).Some? && DisplayString(a).value != []
    ensures DisplayString(ValuesListClass) == None
    ensures a != b && DisplayString(a).Some? && DisplayString(b).Some? ==> DisplayString(a) != DisplayString(b)
  {
  }

  // --- notes and placeholders ------------------------------------------

  // The fixed pieces of the notes' wording.
  const INCOMPLETE: string := "This TRiDaS is incomplete. "
  const OPEN_ACCESS_ONLY: string := "Only open access information is included!"
  const ENTITY_REMOVED: string := " - The entity has been removed. "
  const AUTHORISED_TO_VIEW: string := "You are currently authorised to view no more than the "
  const REQUESTED_TO_VIEW: string := "You requested to view no more than the "
  const LEVEL_OF_PROJECT: string := " level of this project. "

  /** The sentence that differs between the two restrictors. */
  function Viewing(r: Restrictor): string
  {
    match r
    case PermissionRestrictor => AUTHORISED_TO_VIEW
    case RequestedLevelRestrictor => REQUESTED_TO_VIEW
  }

  /** `createIncompleteTridasNoteForOpenAccess`: the same text for both restrictors. */
  function OpenAccessNote(): GenericField
  {
    GenericField(Some(INCOMPLETE_TRIDAS_NOTE_GENERICFIELD_NAME), Some(INCOMPLETE + OPEN_ACCESS_ONLY))
  }

  /** `createIncompleteTridasNote(level)`. */
  function IncompleteNote(r: Restrictor, level: Level): GenericField
  {
    GenericField(Some(INCOMPLETE_TRIDAS_NOTE_GENERICFIELD_NAME),
      Some(INCOMPLETE + Viewing(r) + Name(level) + LEVEL_OF_PROJECT))
  }

  /** `createRemovedTridasEntityPlaceholder(entityLabel, level)`. */
  function Placeholder(r: Restrictor, entityLabel: string, level: Level): GenericField
  {
    GenericField(Some(INCOMPLETE_TRIDAS_ENTITY_PLACEHOLDER_GENERICFIELD_NAME),
      Some(entityLabel + ENTITY_REMOVED + Viewing(r) + Name(level) + LEVEL_OF_PROJECT))
  }

  /** `%s` renders a null argument as "null". */
  function FormatString(s: Option<string>): string
  {
    if s.Some? then s.value else "null"
  }

  /** The part of a placeholder label in front of its ordinal: "(T) ". */
  function LabelPrefix(entityType: Option<string>): string
  {
    "(" + FormatString(entityType) + ") "
  }

  /** `String.format("(%s) %d of %d ", entityType, i, n)`. */
  function PlaceholderLabel(entityType: Option<string>, i: nat, n: nat): string
  {
    LabelPrefix(entityType) + NatToString(i) + " of " + NatToString(n) + " "
  }

  /** The generic fields `addPlaceholders(entity, entityType, n, level)` appends, in order. */
  function Placeholders(r: Restrictor, entityType: Option<string>, n: nat, level: Level): (ps: seq<GenericField>)
    ensures |ps| == n
  {
    seq(n, i requires 0 <= i < n => Placeholder(r, PlaceholderLabel(entityType, i + 1, n), level))
  }

  /** The i-th placeholder is the one made for the label "(T) i+1 of n ". */
  lemma PlaceholderAt(r: Restrictor, entityType: Option<string>, n: nat, level: Level, i: nat)
    requires i < n
    ensures Placeholders(r, entityType, n, level)[i] == Placeholder(r, PlaceholderLabel(entityType, i + 1, n), level)
  {
  }

  /** The ordinal written right after a label prefix of length `prefixLength`. */
  function Ordinal(value: string, prefixLength: nat): nat
    requires prefixLength <= |value|
  {
    var rest := value[prefixLength..];
    DigitsValue(rest[..LeadingDigits(rest)])
  }

  /** A number written after a prefix and before a non-digit reads back as that number. */
  lemma OrdinalAfterPrefix(prefix: string, k: nat, tail: string)
    requires tail != [] && !IsDigit(tail[0])
    ensures var v := prefix + NatToString(k) + tail;
      StartsWith(v, prefix) && Ordinal(v, |prefix|) == k
  {
    var v := prefix + NatToString(k) + tail;
    assert v[..|prefix|] == prefix;
    assert v[|prefix|..] == NatToString(k) + tail;
    ReadLeadingNat(k, tail);
  }

  /** Regrouping the pieces of a placeholder value after its ordinal. */
  lemma RegroupAfterOrdinal(a: string, b: string, c: string, d: string, e: string, f: string, g: string, h: string, k: string)
    ensures a + b + c + d + e + f + g + h + k == a + b + (c + d + e + f + g + h + k)
  {
  }

  /**
   * Each placeholder is named as a placeholder, its value starts with the
   * label prefix, and the ordinal after the prefix reads back as i + 1.
   */
  lemma PlaceholderReadsBack(r: Restrictor, entityType: Option<string>, n: nat, level: Level, i: nat)
    requires i < n
    ensures var f := Placeholders(r, entityType, n, level)[i];
      && f.name == Some(INCOMPLETE_TRIDAS_ENTITY_PLACEHOLDER_GENERICFIELD_NAME)
      && f.value.Some?
      && StartsWith(f.value.value, LabelPrefix(entityType))
      && Ordinal(f.value.value, |LabelPrefix(entityType)|) == i + 1
  {
    var prefix := LabelPrefix(entityType);
    var ordinal := NatToString(i + 1);
    var of := " of ";
    var count := NatToString(n);
    var removed := ENTITY_REMOVED;
    var viewing := Viewing(r);
    var name := Name(level);
    var levelText := LEVEL_OF_PROJECT;
    var f := Placeholders(r, entityType, n, level)[i];
    assert f == Placeholder(r, PlaceholderLabel(entityType, i + 1, n), level);
    assert f.value.value == prefix + ordinal + of + count + " " + removed + viewing + name + levelText;
    RegroupAfterOrdinal(prefix, ordinal, of, count, " ", removed, viewing, name, levelText);
    var tail := of + count + " " + removed + viewing + name + levelText;
    assert tail[0] == ' ';
    OrdinalAfterPrefix(prefix, i + 1, tail);
  }

  /** The placeholders `addPlaceholders` appends are pairwise different. */
  lemma PlaceholdersDistinct(r: Restrictor, entityType: Option<string>, n: nat, level: Level, i: nat, j: nat)
    requires i < j < n
    ensures Placeholders(r, entityType, n, level)[i] != Placeholders(r, entityType, n, level)[j]
  {
    PlaceholderReadsBack(r, entityType, n, level, i);
    PlaceholderReadsBack(r, entityType, n, level, j);
  }

  /** Texts that differ only in a middle part of different length are different. */
  lemma DifferInMiddle(a: string, x: string, y: string, b: string, c: string)
    requires |x| != |y|
    ensures a + x + b + c != a + y + b + c
  {
  }

  /** The two restrictors' notes and placeholders can be told apart by their wording. */
  lemma WordingDiffers(entityLabel: string, level: Level)
    ensures IncompleteNote(PermissionRestrictor, level) != IncompleteNote(RequestedLevelRestrictor, level)
    ensures Placeholder(PermissionRestrictor, entityLabel, level) != Placeholder(RequestedLevelRestrictor, entityLabel, level)
  {
    var x := Viewing(PermissionRestrictor);
    var y := Viewing(RequestedLevelRestrictor);
    DifferInMiddle(INCOMPLETE, x, y, Name(level), LEVEL_OF_PROJECT);
    DifferInMiddle(entityLabel + ENTITY_REMOVED, x, y, Name(level), LEVEL_OF_PROJECT);
  }

  // --- the per-layer descent -------------------------------------------

  /**
   * `restrictToPermitted(series, level)` for measurement and derived
   * series alike, with the "values" label (see `RestrictedSeriesAsWritten`).
   */
  function RestrictedSeries(r: Restrictor, s: Series, level: Level): (res: Series)
    ensures !IsPermittedBy(VALUES, level) ==>
      res.values == [] && res.genericFields == s.genericFields + Placeholders(r, Some("values"), |s.values|, level)
    ensures IsPermittedBy(VALUES, level) ==> res == s
  {
    if !IsPermittedBy(VALUES, level) then
      Series(s.genericFields + Placeholders(r, DisplayString(ValuesClass), |s.values|, level), [])
    else s
  }

  /**
   * The series restriction as the source writes it: the label is looked up
   * with the values list's own runtime class, which is no key of the map.
   */
  function RestrictedSeriesAsWritten(r: Restrictor, s: Series, level: Level): Series
  {
    if !IsPermittedBy(VALUES, level) then
      Series(s.genericFields + Placeholders(r, DisplayString(ValuesListClass), |s.values|, level), [])
    else s
  }

  /** As written, a removed values block is labelled "(null) 1 of 1", not "(values) 1 of 1". */
  lemma ValuesPlaceholderSaysNull(r: Restrictor, v: Values, level: Level)
    requires level != VALUES
    ensures var s := Series([], [v]);
      && RestrictedSeriesAsWritten(r, s, level).genericFields[0] == Placeholder(r, "(null) 1 of 1 ", level)
      && RestrictedSeries(r, s, level).genericFields[0] == Placeholder(r, "(values) 1 of 1 ", level)
  {
    assert NatToString(1) == "1";
    assert DisplayString(ValuesListClass) == None;
    assert PlaceholderLabel(None, 1, 1) == "(null) 1 of 1 ";
    assert PlaceholderLabel(Some("values"), 1, 1) == "(values) 1 of 1 ";
  }

  /** `restrictToPermitted(radius, level)`: prune the measurement series or descend into them. */
  function RestrictedRadius(r: Restrictor, x: Radius, level: Level): (res: Radius)
    ensures !IsPermittedBy(SERIES, level) ==>
      res.measurementSeries == [] && |res.genericFields| == |x.genericFields| + |x.measurementSeries|
    ensures IsPermittedBy(SERIES, level) ==>
      res.genericFields == x.genericFields && |res.measurementSeries| == |x.measurementSeries|
  {
    if !IsPermittedBy(SERIES, level) then
      Radius(x.genericFields + Placeholders(r, DisplayString(MeasurementSeriesClass), |x.measurementSeries|, level), [])
    else
      x.(measurementSeries := seq(|x.measurementSeries|, i requires 0 <= i < |x.measurementSeries| =>
           RestrictedSeries(r, x.measurementSeries[i], level)))
  }

  /** `restrictToPermitted(sample, level)`: prune the radii or descend into them. */
  function RestrictedSample(r: Restrictor, x: Sample, level: Level): (res: Sample)
    ensures !IsPermittedBy(RADIUS, level) ==>
      res.radii == [] && |res.genericFields| == |x.genericFields| + |x.radii|
    ensures IsPermittedBy(RADIUS, level) ==>
      res.genericFields == x.genericFields && |res.radii| == |x.radii|
  {
    if !IsPermittedBy(RADIUS, level) then
      Sample(x.genericFields + Placeholders(r, DisplayString(RadiusClass), |x.radii|, level), [])
    else
      x.(radii := seq(|x.radii|, i requires 0 <= i < |x.radii| => RestrictedRadius(r, x.radii[i], level)))
  }

  /** `restrictToPermitted(element, level)`: prune the samples or descend into them. */
  function RestrictedElement(r: Restrictor, x: Element, level: Level): (res: Element)
    ensures !IsPermittedBy(SAMPLE, level) ==>
      res.samples == [] && |res.genericFields| == |x.genericFields| + |x.samples|
    ensures IsPermittedBy(SAMPLE, level) ==>
      res.genericFields == x.genericFields && |res.samples| == |x.samples|
  {
    if !IsPermittedBy(SAMPLE, level) then
      Element(x.genericFields + Placeholders(r, DisplayString(SampleClass), |x.samples|, level), [])
    else
      x.(samples := seq(|x.samples|, i requires 0 <= i < |x.samples| => RestrictedSample(r, x.samples[i], level)))
  }

  /**
   * `restrictToPermitted(object, level)`: prune the elements or descend into
   * them, and always descend into the sub-objects.
   */
  function RestrictedObject(r: Restrictor, o: TObject, level: Level): (res: TObject)
    ensures !IsPermittedBy(ELEMENT, level) ==>
      res.elements == [] && |res.genericFields| == |o.genericFields| + |o.elements|
    ensures IsPermittedBy(ELEMENT, level) ==>
      res.genericFields == o.genericFields && |res.elements| == |o.elements|
    ensures res.attributes == o.attributes && res.files == o.files && |res.objects| == |o.objects|
    decreases o
  {
    var objects := seq(|o.objects|, i requires 0 <= i < |o.objects| => RestrictedObject(r, o.objects[i], level));
    if !IsPermittedBy(ELEMENT, level) then
      o.(genericFields := o.genericFields + Placeholders(r, DisplayString(ElementClass), |o.elements|, level),
         elements := [], objects := objects)
    else
      o.(elements := seq(|o.elements|, i requires 0 <= i < |o.elements| => RestrictedElement(r, o.elements[i], level)),
         objects := objects)
  }

  // --- open access -------------------------------------------------------

  /** `restrictToOpenAccess(object)`: keep title and type, one note, no elements; recurse into sub-objects. */
  function OpenAccessObject(o: TObject): (res: TObject)
    ensures res.elements == [] && res.files == [] && res.genericFields == [OpenAccessNote()]
    ensures |res.objects| == |o.objects|
    decreases o
  {
    TObject(
      ObjectAttributes(o.attributes.title, o.attributes.objectType,
        None, None, None, None, None, None, None, None, None, None),
      [], [OpenAccessNote()], [],
      seq(|o.objects|, i requires 0 <= i < |o.objects| => OpenAccessObject(o.objects[i])))
  }

  /** `restrictToOpenAccess(project)`. */
  function OpenAccessProject(p: ProjectModel): (res: ProjectModel)
    ensures res.references == [] && res.researches == [] && res.files == [] && res.derivedSeries == []
    ensures res.genericFields == [OpenAccessNote()]
    ensures |res.objects| == |p.objects|
  {
    ProjectModel(
      p.attributes.(createdTimestamp := None, lastModifiedTimestamp := None, comments := None,
                    description := None, period := None, commissioner := None),
      [], [], [], [OpenAccessNote()],
      seq(|p.objects|, i requires 0 <= i < |p.objects| => OpenAccessObject(p.objects[i])),
      [])
  }

  // --- project level -----------------------------------------------------

  /** `removeDerivedSeries(project, level)`. */
  function WithoutDerivedSeries(r: Restrictor, p: ProjectModel, level: Level): (res: ProjectModel)
    ensures res.derivedSeries == []
    ensures |res.genericFields| == |p.genericFields| + |p.derivedSeries|
    ensures res.genericFields[..|p.genericFields|] == p.genericFields
    ensures res.objects == p.objects
  {
    p.(genericFields := p.genericFields + Placeholders(r, DisplayString(DerivedSeriesClass), |p.derivedSeries|, level),
       derivedSeries := [])
  }

  /** `removeObjects(project, level)` of the requested-level restrictor: one placeholder per top-level object. */
  function WithoutObjects(r: Restrictor, p: ProjectModel, level: Level): (res: ProjectModel)
    ensures res.objects == []
    ensures |res.genericFields| == |p.genericFields| + |p.objects|
    ensures res.genericFields[..|p.genericFields|] == p.genericFields
    ensures res.derivedSeries == p.derivedSeries
  {
    p.(genericFields := p.genericFields + Placeholders(r, DisplayString(ObjectClass), |p.objects|, level),
       objects := [])
  }

  /** The OBJECT..SERIES branch after any derived-series removal: descend, then add the note. */
  function Descended(r: Restrictor, p: ProjectModel, level: Level): (res: ProjectModel)
    ensures |res.objects| == |p.objects| && |res.derivedSeries| == |p.derivedSeries|
    ensures res.genericFields == p.genericFields + [IncompleteNote(r, level)]
  {
    p.(objects := seq(|p.objects|, i requires 0 <= i < |p.objects| => RestrictedObject(r, p.objects[i], level)),
       derivedSeries := seq(|p.derivedSeries|, k requires 0 <= k < |p.derivedSeries| =>
         RestrictedSeries(r, p.derivedSeries[k], level)),
       genericFields := p.genericFields + [IncompleteNote(r, level)])
  }

  /** `restrictToPermitted(project, level)` of either restrictor. */
  function RestrictedProject(r: Restrictor, p: ProjectModel, level: Level): ProjectModel
  {
    match level
    case MINIMAL => OpenAccessProject(p)
    case PROJECT =>
      if r == PermissionRestrictor then
        var q := WithoutDerivedSeries(r, p, level);
        q.(objects := seq(|q.objects|, i requires 0 <= i < |q.objects| => OpenAccessObject(q.objects[i])),
           genericFields := q.genericFields + [IncompleteNote(r, level)])
      else
        var q := WithoutDerivedSeries(r, WithoutObjects(r, p, level), level);
        q.(genericFields := q.genericFields + [IncompleteNote(r, level)])
    case OBJECT => Descended(r, WithoutDerivedSeries(r, p, level), level)
    case ELEMENT => Descended(r, WithoutDerivedSeries(r, p, level), level)
    case SAMPLE => Descended(r, WithoutDerivedSeries(r, p, level), level)
    case RADIUS => Descended(r, WithoutDerivedSeries(r, p, level), level)
    case SERIES => Descended(r, p, level)
    case VALUES => p
  }

  // --- nothing finer than the level remains --------------------------------

  predicate SeriesWithin(s: Series, level: Level)
  {
    IsPermittedBy(VALUES, level) || s.values == []
  }

  predicate RadiusWithin(x: Radius, level: Level)
  {
    if IsPermittedBy(SERIES, level) then
      forall i :: 0 <= i < |x.measurementSeries| ==> SeriesWithin(x.measurementSeries[i], level)
    else x.measurementSeries == []
  }

  predicate SampleWithin(x: Sample, level: Level)
  {
    if IsPermittedBy(RADIUS, level) then
      forall i :: 0 <= i < |x.radii| ==> RadiusWithin(x.radii[i], level)
    else x.radii == []
  }

  predicate ElementWithin(x: Element, level: Level)
  {
    if IsPermittedBy(SAMPLE, level) then
      forall i :: 0 <= i < |x.samples| ==> SampleWithin(x.samples[i], level)
    else x.samples == []
  }

  predicate ObjectWithin(o: TObject, level: Level)
    decreases o
  {
    && (if IsPermittedBy(ELEMENT, level) then
          forall i :: 0 <= i < |o.elements| ==> ElementWithin(o.elements[i], level)
        else o.elements == [])
    && forall i :: 0 <= i < |o.objects| ==> ObjectWithin(o.objects[i], level)
  }

  /**
   * A project holds no entity of a layer finer than `level`: objects hold no
   * elements unless ELEMENT is permitted, and so on down to the values, and
   * derived series are gone unless SERIES is permitted.
   */
  predicate ProjectWithin(p: ProjectModel, level: Level)
  {
    && (if IsPermittedBy(SERIES, level) then
          forall k :: 0 <= k < |p.derivedSeries| ==> SeriesWithin(p.derivedSeries[k], level)
        else p.derivedSeries == [])
    && forall i :: 0 <= i < |p.objects| ==> ObjectWithin(p.objects[i], level)
  }

  /** Every tree is within VALUES. */
  lemma {:induction false} ObjectWithinValues(o: TObject)
    ensures ObjectWithin(o, VALUES)
    decreases o
  {
    forall i | 0 <= i < |o.objects| {
      ObjectWithinValues(o.objects[i]);
    }
  }

  lemma ProjectWithinValues(p: ProjectModel)
    ensures ProjectWithin(p, VALUES)
  {
    forall i | 0 <= i < |p.objects| {
      ObjectWithinValues(p.objects[i]);
    }
  }

  lemma RadiusRestrictedWithin(r: Restrictor, x: Radius, old_level: Level, level: Level)
    requires RadiusWithin(x, old_level)
    ensures RadiusWithin(RestrictedRadius(r, x, level), Stricter(old_level, level))
  {
  }

  lemma SampleRestrictedWithin(r: Restrictor, x: Sample, old_level: Level, level: Level)
    requires SampleWithin(x, old_level)
    ensures SampleWithin(RestrictedSample(r, x, level), Stricter(old_level, level))
  {
    if IsPermittedBy(RADIUS, level) {
      forall i | 0 <= i < |x.radii| {
        RadiusRestrictedWithin(r, x.radii[i], old_level, level);
      }
    }
  }

  lemma ElementRestrictedWithin(r: Restrictor, x: Element, old_level: Level, level: Level)
    requires ElementWithin(x, old_level)
    ensures ElementWithin(RestrictedElement(r, x, level), Stricter(old_level, level))
  {
    if IsPermittedBy(SAMPLE, level) {
      forall i | 0 <= i < |x.samples| {
        SampleRestrictedWithin(r, x.samples[i], old_level, level);
      }
    }
  }

  /**
   * Restricting an object to `level` leaves nothing finer than `level`, and
   * removes without adding: what was within `old_level` stays within it.
   */
  lemma {:induction false} ObjectRestrictedWithin(r: Restrictor, o: TObject, old_level: Level, level: Level)
    requires ObjectWithin(o, old_level)
    ensures ObjectWithin(RestrictedObject(r, o, level), Stricter(old_level, level))
    decreases o
  {
    var res := RestrictedObject(r, o, level);
    if IsPermittedBy(ELEMENT, level) {
      forall i | 0 <= i < |o.elements| {
        ElementRestrictedWithin(r, o.elements[i], old_level, level);
      }
    }
    forall i | 0 <= i < |o.objects|
      ensures ObjectWithin(res.objects[i], Stricter(old_level, level))
    {
      ObjectRestrictedWithin(r, o.objects[i], old_level, level);
    }
  }

  /** An open-access object holds no elements at any depth. */
  lemma {:induction false} OpenAccessObjectWithin(o: TObject, level: Level)
    ensures ObjectWithin(OpenAccessObject(o), level)
    decreases o
  {
    var res := OpenAccessObject(o);
    forall i | 0 <= i < |o.objects|
      ensures ObjectWithin(res.objects[i], level)
    {
      OpenAccessObjectWithin(o.objects[i], level);
    }
  }

  lemma OpenAccessProjectWithin(p: ProjectModel, level: Level)
    ensures ProjectWithin(OpenAccessProject(p), level)
  {
    var res := OpenAccessProject(p);
    forall i | 0 <= i < |p.objects| ensures ObjectWithin(res.objects[i], level) {
      OpenAccessObjectWithin(p.objects[i], level);
    }
  }

  lemma DescendedWithin(r: Restrictor, q: ProjectModel, old_level: Level, level: Level)
    requires ProjectWithin(q, old_level)
    requires level == SERIES || q.derivedSeries == []
    requires level != VALUES
    ensures ProjectWithin(Descended(r, q, level), Stricter(old_level, level))
  {
    var res := Descended(r, q, level);
    forall i | 0 <= i < |q.objects| ensures ObjectWithin(res.objects[i], Stricter(old_level, level)) {
      ObjectRestrictedWithin(r, q.objects[i], old_level, level);
    }
  }

  /**
   * After `restrictToPermitted(project, level)` nothing finer than `level`
   * remains, and a project already within `old_level` stays within it.
   */
  lemma ProjectRestrictedWithin(r: Restrictor, p: ProjectModel, old_level: Level, level: Level)
    requires ProjectWithin(p, old_level)
    ensures ProjectWithin(RestrictedProject(r, p, level), Stricter(old_level, level))
  {
    var m := Stricter(old_level, level);
    if level == MINIMAL {
      OpenAccessProjectWithin(p, m);
    } else if level == PROJECT {
      if r == PermissionRestrictor {
        var q := WithoutDerivedSeries(r, p, level);
        var res := RestrictedProject(r, p, level);
        forall i | 0 <= i < |q.objects| ensures ObjectWithin(res.objects[i], m) {
          OpenAccessObjectWithin(q.objects[i], m);
        }
      }
    } else if level == SERIES {
      DescendedWithin(r, p, old_level, level);
    } else if level != VALUES {
      DescendedWithin(r, WithoutDerivedSeries(r, p, level), old_level, level);
    }
  }

  /** Restricting at a level leaves nothing finer than that level. */
  lemma ProjectRestrictedIsWithin(r: Restrictor, p: ProjectModel, level: Level)
    ensures ProjectWithin(RestrictedProject(r, p, level), level)
  {
    ProjectWithinValues(p);
    ProjectRestrictedWithin(r, p, VALUES, level);
    assert Stricter(VALUES, level) == level;
  }

  // --- restriction changes nothing that is already within the level --------

  lemma SeriesFixed(r: Restrictor, s: Series, level: Level)
    requires SeriesWithin(s, level)
    ensures RestrictedSeries(r, s, level) == s
  {
    if !IsPermittedBy(VALUES, level) {
      assert s.genericFields + [] == s.genericFields;
    }
  }

  lemma RadiusFixed(r: Restrictor, x: Radius, level: Level)
    requires RadiusWithin(x, level)
    ensures RestrictedRadius(r, x, level) == x
  {
    if IsPermittedBy(SERIES, level) {
      forall i | 0 <= i < |x.measurementSeries| {
        SeriesFixed(r, x.measurementSeries[i], level);
      }
      assert RestrictedRadius(r, x, level).measurementSeries == x.measurementSeries;
    } else {
      assert x.genericFields + [] == x.genericFields;
    }
  }

  lemma SampleFixed(r: Restrictor, x: Sample, level: Level)
    requires SampleWithin(x, level)
    ensures RestrictedSample(r, x, level) == x
  {
    if IsPermittedBy(RADIUS, level) {
      forall i | 0 <= i < |x.radii| {
        RadiusFixed(r, x.radii[i], level);
      }
      assert RestrictedSample(r, x, level).radii == x.radii;
    } else {
      assert x.genericFields + [] == x.genericFields;
    }
  }

  lemma ElementFixed(r: Restrictor, x: Element, level: Level)
    requires ElementWithin(x, level)
    ensures RestrictedElement(r, x, level) == x
  {
    if IsPermittedBy(SAMPLE, level) {
      forall i | 0 <= i < |x.samples| {
        SampleFixed(r, x.samples[i], level);
      }
      assert RestrictedElement(r, x, level).samples == x.samples;
    } else {
      assert x.genericFields + [] == x.genericFields;
    }
  }

  /** Restricting an object that holds nothing finer than `level` leaves it as it is. */
  lemma {:induction false} ObjectFixed(r: Restrictor, o: TObject, level: Level)
    requires ObjectWithin(o, level)
    ensures RestrictedObject(r, o, level) == o
    decreases o
  {
    var res := RestrictedObject(r, o, level);
    if IsPermittedBy(ELEMENT, level) {
      forall i | 0 <= i < |o.elements| {
        ElementFixed(r, o.elements[i], level);
      }
      assert res.elements == o.elements;
    } else {
      assert o.genericFields + [] == o.genericFields;
    }
    forall i | 0 <= i < |o.objects| ensures res.objects[i] == o.objects[i] {
      ObjectFixed(r, o.objects[i], level);
    }
    assert res.objects == o.objects;
  }

  /** At VALUES the per-layer descent changes no object at any depth. */
  lemma RestrictedObjectAtValues(r: Restrictor, o: TObject)
    ensures RestrictedObject(r, o, VALUES) == o
  {
    ObjectWithinValues(o);
    ObjectFixed(r, o, VALUES);
  }

  /** Restricting an object twice at the same level is restricting it once. */
  lemma RestrictedObjectIdempotent(r: Restrictor, o: TObject, level: Level)
    ensures RestrictedObject(r, RestrictedObject(r, o, level), level) == RestrictedObject(r, o, level)
  {
    ObjectWithinValues(o);
    ObjectRestrictedWithin(r, o, VALUES, level);
    assert Stricter(VALUES, level) == level;
    ObjectFixed(r, RestrictedObject(r, o, level), level);
  }

  lemma RestrictedSeriesIdempotent(r: Restrictor, s: Series, level: Level)
    ensures RestrictedSeries(r, RestrictedSeries(r, s, level), level) == RestrictedSeries(r, s, level)
  {
    SeriesFixed(r, RestrictedSeries(r, s, level), level);
  }

  // --- open access ---------------------------------------------------------

  /** An object as open access leaves it, at every depth. */
  predicate ObjectIsOpenAccess(o: TObject)
    decreases o
  {
    && o.elements == [] && o.files == [] && o.genericFields == [OpenAccessNote()]
    && o.attributes == ObjectAttributes(o.attributes.title, o.attributes.objectType,
         None, None, None, None, None, None, None, None, None, None)
    && forall i :: 0 <= i < |o.objects| ==> ObjectIsOpenAccess(o.objects[i])
  }

  /** Two object trees nest alike and agree on title and type at every depth. */
  predicate SameNesting(a: TObject, b: TObject)
    decreases a
  {
    && a.attributes.title == b.attributes.title
    && a.attributes.objectType == b.attributes.objectType
    && |a.objects| == |b.objects|
    && forall i :: 0 <= i < |a.objects| ==> SameNesting(a.objects[i], b.objects[i])
  }

  /**
   * `restrictToOpenAccess(object)` leaves every object at every depth open
   * access, and keeps the sub-objects with their titles and types.
   */
  lemma {:induction false} OpenAccessObjectShape(o: TObject)
    ensures ObjectIsOpenAccess(OpenAccessObject(o))
    ensures SameNesting(OpenAccessObject(o), o)
    decreases o
  {
    var res := OpenAccessObject(o);
    forall i | 0 <= i < |o.objects|
      ensures ObjectIsOpenAccess(res.objects[i]) && SameNesting(res.objects[i], o.objects[i])
    {
      OpenAccessObjectShape(o.objects[i]);
    }
  }

  /** An object that is already open access is left as it is. */
  lemma {:induction false} OpenAccessObjectFixed(o: TObject)
    requires ObjectIsOpenAccess(o)
    ensures OpenAccessObject(o) == o
    decreases o
  {
    var res := OpenAccessObject(o);
    forall i | 0 <= i < |o.objects| ensures res.objects[i] == o.objects[i] {
      OpenAccessObjectFixed(o.objects[i]);
    }
    assert res.objects == o.objects;
  }

  lemma OpenAccessObjectIdempotent(o: TObject)
    ensures OpenAccessObject(OpenAccessObject(o)) == OpenAccessObject(o)
  {
    OpenAccessObjectShape(o);
    OpenAccessObjectFixed(OpenAccessObject(o));
  }

  /**
   * At MINIMAL either restrictor gives the open-access project: no
   * derived series, references, researches or files, the open-access note
   * as the only generic field, and every object at every depth open access,
   * with its sub-objects kept.
   */
  lemma MinimalIsOpenAccess(r: Restrictor, p: ProjectModel)
    ensures var q := RestrictedProject(r, p, MINIMAL);
      && q.derivedSeries == [] && q.references == [] && q.researches == [] && q.files == []
      && q.genericFields == [OpenAccessNote()]
      && q.attributes.title == p.attributes.title && q.attributes.identifier == p.attributes.identifier
      && q.attributes.createdTimestamp == None && q.attributes.lastModifiedTimestamp == None
      && q.attributes.comments == None && q.attributes.description == None
      && q.attributes.period == None && q.attributes.commissioner == None
      && |q.objects| == |p.objects|
      && (forall i :: 0 <= i < |q.objects| ==> ObjectIsOpenAccess(q.objects[i]) && SameNesting(q.objects[i], p.objects[i]))
    ensures RestrictedProject(r, p, MINIMAL) == RestrictedProject(PermissionRestrictor, p, MINIMAL)
  {
    var q := RestrictedProject(r, p, MINIMAL);
    forall i | 0 <= i < |q.objects| ensures ObjectIsOpenAccess(q.objects[i]) && SameNesting(q.objects[i], p.objects[i]) {
      OpenAccessObjectShape(p.objects[i]);
    }
  }

  // --- the project-level branches ------------------------------------------

  /**
   * At PROJECT the permission restrictor replaces the derived series by
   * placeholders, makes every object open access, and then appends one note.
   */
  lemma PermissionProjectLevel(p: ProjectModel)
    ensures var q := RestrictedProject(PermissionRestrictor, p, PROJECT);
      && q.derivedSeries == []
      && q.genericFields == p.genericFields
           + Placeholders(PermissionRestrictor, Some("derivedSeries"), |p.derivedSeries|, PROJECT)
           + [IncompleteNote(PermissionRestrictor, PROJECT)]
      && |q.objects| == |p.objects|
      && (forall i :: 0 <= i < |q.objects| ==> ObjectIsOpenAccess(q.objects[i]) && SameNesting(q.objects[i], p.objects[i]))
  {
    var q := RestrictedProject(PermissionRestrictor, p, PROJECT);
    forall i | 0 <= i < |q.objects| ensures ObjectIsOpenAccess(q.objects[i]) && SameNesting(q.objects[i], p.objects[i]) {
      OpenAccessObjectShape(p.objects[i]);
    }
  }

  /**
   * At PROJECT the requested-level restrictor removes every top-level object
   * and every derived series, appending first one "object" placeholder per
   * top-level object (sub-objects get none), then one "derivedSeries"
   * placeholder per derived series, then one note.
   */
  lemma RequestedProjectLevel(p: ProjectModel)
    ensures var q := RestrictedProject(RequestedLevelRestrictor, p, PROJECT);
      && q.objects == [] && q.derivedSeries == []
      && q.genericFields == p.genericFields
           + Placeholders(RequestedLevelRestrictor, Some("object"), |p.objects|, PROJECT)
           + Placeholders(RequestedLevelRestrictor, Some("derivedSeries"), |p.derivedSeries|, PROJECT)
           + [IncompleteNote(RequestedLevelRestrictor, PROJECT)]
      && |q.genericFields| == |p.genericFields| + |p.objects| + |p.derivedSeries| + 1
  {
  }

  /**
   * OBJECT to RADIUS replace the derived series by placeholders before
   * descending; SERIES keeps them but empties their values.  Each appends
   * exactly one note, after any placeholders.
   */
  lemma DescentLevels(r: Restrictor, p: ProjectModel, level: Level)
    requires IsPermittedBy(OBJECT, level) && IsPermittedBy(level, SERIES)
    ensures var q := RestrictedProject(r, p, level);
      && |q.objects| == |p.objects|
      && (forall i :: 0 <= i < |q.objects| ==> q.objects[i] == RestrictedObject(r, p.objects[i], level))
      && (level != SERIES ==>
            && q.derivedSeries == []
            && q.genericFields == p.genericFields
                 + Placeholders(r, Some("derivedSeries"), |p.derivedSeries|, level) + [IncompleteNote(r, level)])
      && (level == SERIES ==>
            && q.genericFields == p.genericFields + [IncompleteNote(r, level)]
            && |q.derivedSeries| == |p.derivedSeries|
            && forall k :: 0 <= k < |q.derivedSeries| ==>
                 q.derivedSeries[k].values == []
                 && q.derivedSeries[k].genericFields == p.derivedSeries[k].genericFields
                      + Placeholders(r, Some("values"), |p.derivedSeries[k].values|, level))
  {
  }

  lemma OpenAccessProjectIdempotent(p: ProjectModel)
    ensures OpenAccessProject(OpenAccessProject(p)) == OpenAccessProject(p)
  {
    var q := OpenAccessProject(p);
    var q2 := OpenAccessProject(q);
    forall i | 0 <= i < |q.objects| ensures q2.objects[i] == q.objects[i] {
      OpenAccessObjectIdempotent(p.objects[i]);
    }
    assert q2.objects == q.objects;
  }

  lemma PermissionProjectLevelRepeated(p: ProjectModel)
    ensures var q := RestrictedProject(PermissionRestrictor, p, PROJECT);
      RestrictedProject(PermissionRestrictor, q, PROJECT)
        == q.(genericFields := q.genericFields + [IncompleteNote(PermissionRestrictor, PROJECT)])
  {
    var q := RestrictedProject(PermissionRestrictor, p, PROJECT);
    var q2 := RestrictedProject(PermissionRestrictor, q, PROJECT);
    forall i | 0 <= i < |q.objects| ensures q2.objects[i] == q.objects[i] {
      OpenAccessObjectIdempotent(p.objects[i]);
    }
    assert q2.objects == q.objects;
    assert q.genericFields + [] == q.genericFields;
  }

  lemma DescendedRepeated(r: Restrictor, q: ProjectModel, level: Level)
    ensures var d := Descended(r, q, level);
      Descended(r, d, level) == d.(genericFields := d.genericFields + [IncompleteNote(r, level)])
  {
    var d := Descended(r, q, level);
    var d2 := Descended(r, d, level);
    forall i | 0 <= i < |d.objects| ensures d2.objects[i] == d.objects[i] {
      RestrictedObjectIdempotent(r, q.objects[i], level);
    }
    assert d2.objects == d.objects;
    forall k | 0 <= k < |d.derivedSeries| ensures d2.derivedSeries[k] == d.derivedSeries[k] {
      RestrictedSeriesIdempotent(r, q.derivedSeries[k], level);
    }
    assert d2.derivedSeries == d.derivedSeries;
  }

  lemma RequestedProjectLevelRepeated(p: ProjectModel)
    ensures var q := RestrictedProject(RequestedLevelRestrictor, p, PROJECT);
      RestrictedProject(RequestedLevelRestrictor, q, PROJECT)
        == q.(genericFields := q.genericFields + [IncompleteNote(RequestedLevelRestrictor, PROJECT)])
  {
    var q := RestrictedProject(RequestedLevelRestrictor, p, PROJECT);
    assert q.genericFields + [] + [] == q.genericFields;
  }

  lemma RemovalThenDescentRepeated(r: Restrictor, p: ProjectModel, level: Level)
    ensures var q := Descended(r, WithoutDerivedSeries(r, p, level), level);
      Descended(r, WithoutDerivedSeries(r, q, level), level)
        == q.(genericFields := q.genericFields + [IncompleteNote(r, level)])
  {
    var w := WithoutDerivedSeries(r, p, level);
    var q := Descended(r, w, level);
    assert q.genericFields + [] == q.genericFields;
    assert WithoutDerivedSeries(r, q, level) == q;
    DescendedRepeated(r, w, level);
  }

  /**
   * A second restriction at the same level removes nothing more: it only
   * appends one more note (none at MINIMAL and VALUES); notes are never
   * merged.
   */
  lemma RestrictedProjectRepeated(r: Restrictor, p: ProjectModel, level: Level)
    ensures var q := RestrictedProject(r, p, level);
      RestrictedProject(r, q, level)
        == if level == MINIMAL || level == VALUES then q
           else q.(genericFields := q.genericFields + [IncompleteNote(r, level)])
  {
    match level
    case MINIMAL => OpenAccessProjectIdempotent(p);
    case PROJECT =>
      if r == PermissionRestrictor {
        PermissionProjectLevelRepeated(p);
      } else {
        RequestedProjectLevelRepeated(p);
      }
    case OBJECT => RemovalThenDescentRepeated(r, p, level);
    case ELEMENT => RemovalThenDescentRepeated(r, p, level);
    case SAMPLE => RemovalThenDescentRepeated(r, p, level);
    case RADIUS => RemovalThenDescentRepeated(r, p, level);
    case SERIES => DescendedRepeated(r, p, level);
    case VALUES =>
  }
}
