/**
 * `TridasPermissionRestrictor`: prunes a TRiDaS tree down to a permission
 * level.  The project is changed in place; each entity below it is rebuilt
 * by the per-layer method and stored back.  Every method is proved to
 * produce exactly the matching function of module Restriction; the
 * per-layer methods take the `Restrictor` whose wording the notes and
 * placeholders use, because the requested-level restrictor inherits them.
 */
module TridasPermissionRestrictor {
  import opened Wrappers
  import opened PermissionLevel
  import opened Tridas
  import opened Restriction
  import opened Text

  /** `addPlaceholders`: the entity's generic fields with one placeholder per removed child appended. */
  method AddPlaceholders(r: Restrictor, genericFields: seq<GenericField>, replaceEntityType: Option<string>,
                         numToReplace: nat, level: Level)
    returns (result: seq<GenericField>)
    ensures result == genericFields + Placeholders(r, replaceEntityType, numToReplace, level)
  {
    ghost var ps := Placeholders(r, replaceEntityType, numToReplace, level);
    result := genericFields;
    var i := 0;
    while i < numToReplace
      invariant 0 <= i <= numToReplace
      invariant result == genericFields + ps[..i]
    {
      var entityLabel := PlaceholderLabel(replaceEntityType, i + 1, numToReplace);
      var placeholder := Placeholder(r, entityLabel, level);
      PlaceholderAt(r, replaceEntityType, numToReplace, level, i);
      TakeOneMore(ps, i);
      AppendAssociative(genericFields, ps[..i], [placeholder]);
      result := result + [placeholder];
      i := i + 1;
    }
    assert ps[..numToReplace] == ps;
  }

  /**
   * `restrictToPermitted(serie, level)` for a measurement or derived series,
   * labelling the removed values "values" (the source looks the label up
   * with the wrong key; see `Restriction.RestrictedSeriesAsWritten`).
   */
  method RestrictSeries(r: Restrictor, serie: Series, level: Level) returns (res: Series)
    ensures res == RestrictedSeries(r, serie, level)
  {
    res := serie;
    if !IsPermittedBy(VALUES, level) {
      var genericFields := AddPlaceholders(r, serie.genericFields, DisplayString(ValuesClass), |serie.values|, level);
      res := res.(genericFields := genericFields, values := []);
    }
  }

  /** `restrictToPermitted(radius, level)`. */
  method RestrictRadius(r: Restrictor, radius: Radius, level: Level) returns (res: Radius)
    ensures res == RestrictedRadius(r, radius, level)
  {
    res := radius;
    if !IsPermittedBy(SERIES, level) {
      var genericFields := AddPlaceholders(r, radius.genericFields, DisplayString(MeasurementSeriesClass),
                                           |radius.measurementSeries|, level);
      res := res.(genericFields := genericFields, measurementSeries := []);
    } else {
      var i := 0;
      while i < |radius.measurementSeries|
        invariant 0 <= i <= |radius.measurementSeries|
        invariant res.genericFields == radius.genericFields
        invariant |res.measurementSeries| == |radius.measurementSeries|
        invariant forall j :: 0 <= j < i ==>
          res.measurementSeries[j] == RestrictedSeries(r, radius.measurementSeries[j], level)
        invariant forall j :: i <= j < |radius.measurementSeries| ==>
          res.measurementSeries[j] == radius.measurementSeries[j]
      {
        var serie := RestrictSeries(r, res.measurementSeries[i], level);
        res := res.(measurementSeries := res.measurementSeries[i := serie]);
        i := i + 1;
      }
    }
  }

  /** `restrictToPermitted(sample, level)`. */
  method RestrictSample(r: Restrictor, sample: Sample, level: Level) returns (res: Sample)
    ensures res == RestrictedSample(r, sample, level)
  {
    res := sample;
    if !IsPermittedBy(RADIUS, level) {
      var genericFields := AddPlaceholders(r, sample.genericFields, DisplayString(RadiusClass), |sample.radii|, level);
      res := res.(genericFields := genericFields, radii := []);
    } else {
      var i := 0;
      while i < |sample.radii|
        invariant 0 <= i <= |sample.radii|
        invariant res.genericFields == sample.genericFields
        invariant |res.radii| == |sample.radii|
        invariant forall j :: 0 <= j < i ==> res.radii[j] == RestrictedRadius(r, sample.radii[j], level)
        invariant forall j :: i <= j < |sample.radii| ==> res.radii[j] == sample.radii[j]
      {
        var radius := RestrictRadius(r, res.radii[i], level);
        res := res.(radii := res.radii[i := radius]);
        i := i + 1;
      }
    }
  }

  /** `restrictToPermitted(element, level)`. */
  method RestrictElement(r: Restrictor, element: Element, level: Level) returns (res: Element)
    ensures res == RestrictedElement(r, element, level)
  {
    res := element;
    if !IsPermittedBy(SAMPLE, level) {
      var genericFields := AddPlaceholders(r, element.genericFields, DisplayString(SampleClass), |element.samples|, level);
      res := res.(genericFields := genericFields, samples := []);
    } else {
      var i := 0;
      while i < |element.samples|
        invariant 0 <= i <= |element.samples|
        invariant res.genericFields == element.genericFields
        invariant |res.samples| == |element.samples|
        invariant forall j :: 0 <= j < i ==> res.samples[j] == RestrictedSample(r, element.samples[j], level)
        invariant forall j :: i <= j < |element.samples| ==> res.samples[j] == element.samples[j]
      {
        var sample := RestrictSample(r, res.samples[i], level);
        res := res.(samples := res.samples[i := sample]);
        i := i + 1;
      }
    }
  }

  /** `restrictToPermitted(object, level)`: the elements, then every sub-object. */
  method RestrictObject(r: Restrictor, obj: TObject, level: Level) returns (res: TObject)
    ensures res == RestrictedObject(r, obj, level)
    decreases obj
  {
    res := obj;
    if !IsPermittedBy(ELEMENT, level) {
      var genericFields := AddPlaceholders(r, obj.genericFields, DisplayString(ElementClass), |obj.elements|, level);
      res := res.(genericFields := genericFields, elements := []);
    } else {
      var i := 0;
      while i < |obj.elements|
        invariant 0 <= i <= |obj.elements|
        invariant res == obj.(elements := res.elements)
        invariant |res.elements| == |obj.elements|
        invariant forall j :: 0 <= j < i ==> res.elements[j] == RestrictedElement(r, obj.elements[j], level)
        invariant forall j :: i <= j < |obj.elements| ==> res.elements[j] == obj.elements[j]
      {
        var element := RestrictElement(r, res.elements[i], level);
        res := res.(elements := res.elements[i := element]);
        i := i + 1;
      }
    }
    ghost var withElements := res;
    var i := 0;
    while i < |obj.objects|
      invariant 0 <= i <= |obj.objects|
      invariant res == withElements.(objects := res.objects)
      invariant |res.objects| == |obj.objects|
      invariant forall j :: 0 <= j < i ==> res.objects[j] == RestrictedObject(r, obj.objects[j], level)
      invariant forall j :: i <= j < |obj.objects| ==> res.objects[j] == obj.objects[j]
    {
      var subObject := RestrictObject(r, obj.objects[i], level);
      res := res.(objects := res.objects[i := subObject]);
      i := i + 1;
    }
  }

  /** `restrictToOpenAccess(object)`: only title and type survive; sub-objects are restricted too. */
  method RestrictObjectToOpenAccess(obj: TObject) returns (res: TObject)
    ensures res == OpenAccessObject(obj)
    decreases obj
  {
    res := obj.(attributes := obj.attributes.(createdTimestamp := None, lastModifiedTimestamp := None,
                  identifier := None, comments := None, coverage := None, creator := None, description := None,
                  linkSeries := None, location := None, owner := None),
                files := [], genericFields := [], elements := []);
    res := res.(genericFields := res.genericFields + [OpenAccessNote()]);
    ghost var cleared := res;
    var i := 0;
    while i < |obj.objects|
      invariant 0 <= i <= |obj.objects|
      invariant res == cleared.(objects := res.objects)
      invariant |res.objects| == |obj.objects|
      invariant forall j :: 0 <= j < i ==> res.objects[j] == OpenAccessObject(obj.objects[j])
      invariant forall j :: i <= j < |obj.objects| ==> res.objects[j] == obj.objects[j]
    {
      var subObject := RestrictObjectToOpenAccess(obj.objects[i]);
      res := res.(objects := res.objects[i := subObject]);
      i := i + 1;
    }
  }

  /** `restrictToOpenAccess(project)`: the project keeps its title and identifier, one note and its objects, each open-accessed. */
  method RestrictProjectToOpenAccess(project: Project)
    modifies project
    ensures project.Model() == OpenAccessProject(old(project.Model()))
  {
    ghost var p := project.Model();
    project.attributes := project.attributes.(createdTimestamp := None, lastModifiedTimestamp := None,
      comments := None, description := None, period := None, commissioner := None);
    project.references := [];
    project.researches := [];
    project.files := [];
    project.genericFields := [];
    project.derivedSeries := [];
    project.genericFields := project.genericFields + [OpenAccessNote()];
    var i := 0;
    while i < |project.objects|
      invariant 0 <= i <= |project.objects| == |p.objects|
      invariant project.Model() == OpenAccessProject(p).(objects := project.objects)
      invariant forall j :: 0 <= j < i ==> project.objects[j] == OpenAccessObject(p.objects[j])
      invariant forall j :: i <= j < |p.objects| ==> project.objects[j] == p.objects[j]
    {
      var obj := RestrictObjectToOpenAccess(project.objects[i]);
      project.objects := project.objects[i := obj];
      i := i + 1;
    }
  }

  /** `removeDerivedSeries(project, level)`: one placeholder per derived series, then the list is cleared. */
  method RemoveDerivedSeries(r: Restrictor, project: Project, level: Level)
    modifies project
    ensures project.Model() == WithoutDerivedSeries(r, old(project.Model()), level)
  {
    project.genericFields := AddPlaceholders(r, project.genericFields, DisplayString(DerivedSeriesClass),
                                             |project.derivedSeries|, level);
    project.derivedSeries := [];
  }

  /**
   * The OBJECT..SERIES branch shared by both restrictors: every object and
   * every derived series restricted, then the note.
   */
  method Descend(r: Restrictor, project: Project, level: Level)
    modifies project
    ensures project.Model() == Descended(r, old(project.Model()), level)
  {
    ghost var p := project.Model();
    var i := 0;
    while i < |project.objects|
      invariant 0 <= i <= |project.objects| == |p.objects|
      invariant project.Model() == p.(objects := project.objects)
      invariant forall j :: 0 <= j < i ==> project.objects[j] == RestrictedObject(r, p.objects[j], level)
      invariant forall j :: i <= j < |p.objects| ==> project.objects[j] == p.objects[j]
    {
      var obj := RestrictObject(r, project.objects[i], level);
      project.objects := project.objects[i := obj];
      i := i + 1;
    }
    ghost var q := project.Model();
    var k := 0;
    while k < |project.derivedSeries|
      invariant 0 <= k <= |project.derivedSeries| == |p.derivedSeries|
      invariant project.Model() == q.(derivedSeries := project.derivedSeries)
      invariant forall j :: 0 <= j < k ==> project.derivedSeries[j] == RestrictedSeries(r, p.derivedSeries[j], level)
      invariant forall j :: k <= j < |p.derivedSeries| ==> project.derivedSeries[j] == p.derivedSeries[j]
    {
      var serie := RestrictSeries(r, project.derivedSeries[k], level);
      project.derivedSeries := project.derivedSeries[k := serie];
      k := k + 1;
    }
    project.genericFields := project.genericFields + [IncompleteNote(r, level)];
  }

  /** `restrictToPermitted(project, level)` of the permission restrictor. */
  method RestrictProject(project: Project, level: Level)
    modifies project
    ensures project.Model() == RestrictedProject(PermissionRestrictor, old(project.Model()), level)
  {
    var r := PermissionRestrictor;
    match level {
      case MINIMAL =>
        RestrictProjectToOpenAccess(project);
      case PROJECT =>
        RemoveDerivedSeries(r, project, level);
        ghost var q := project.Model();
        var i := 0;
        while i < |project.objects|
          invariant 0 <= i <= |project.objects| == |q.objects|
          invariant project.Model() == q.(objects := project.objects)
          invariant forall j :: 0 <= j < i ==> project.objects[j] == OpenAccessObject(q.objects[j])
          invariant forall j :: i <= j < |q.objects| ==> project.objects[j] == q.objects[j]
        {
          var obj := RestrictObjectToOpenAccess(project.objects[i]);
          project.objects := project.objects[i := obj];
          i := i + 1;
        }
        project.genericFields := project.genericFields + [IncompleteNote(r, level)];
      case OBJECT =>
        RemoveDerivedSeries(r, project, level);
        Descend(r, project, level);
      case ELEMENT =>
        RemoveDerivedSeries(r, project, level);
        Descend(r, project, level);
      case SAMPLE =>
        RemoveDerivedSeries(r, project, level);
        Descend(r, project, level);
      case RADIUS =>
        RemoveDerivedSeries(r, project, level);
        Descend(r, project, level);
      case SERIES =>
        Descend(r, project, level);
      case VALUES =>
    }
  }
}
