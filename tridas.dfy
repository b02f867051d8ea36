/**
 * The part of a TRiDaS (Tree-Ring Data Standard, 1.2.2) document that the
 * archive's REST layer reads or changes:
 *
 *   project -> objects (nested) -> elements -> samples -> radii
 *           -> measurement series -> values,
 *
 * plus derived series at project level.  Every entity carries a list of
 * generic fields (name/value pairs), which is where the redaction notes and
 * placeholders go.
 *
 * The project is the object the REST layer holds and changes in place, so
 * it is a class; the entities below it are values that the restrictors
 * rebuild and store back into the project.  A block of values is an object
 * too: the importer fills placeholder blocks in place.  Attributes the core
 * never looks at are not modelled.
 */
module Tridas {
  import opened Wrappers

  /** `TridasGenericField`: both parts may be unset. */
  datatype GenericField = GenericField(name: Option<string>, value: Option<string>)

  /**
   * `TridasValues`: a block of readings with its variable and unit.  JAXB's
   * `isSetValues()` holds when the readings list is non-empty.
   */
  class Values {
    var readings: seq<string>
    var variable: Option<string>
    var unit: Option<string>

    constructor (readings: seq<string>, variable: Option<string>, unit: Option<string>)
      ensures this.readings == readings && this.variable == variable && this.unit == unit
    {
      this.readings := readings;
      this.variable := variable;
      this.unit := unit;
    }

    predicate IsSetValues()
      reads this
    {
      readings != []
    }
  }

  /** A measurement series or a derived series: the restrictors treat both alike. */
  datatype Series = Series(genericFields: seq<GenericField>, values: seq<Values>)

  datatype Radius = Radius(genericFields: seq<GenericField>, measurementSeries: seq<Series>)

  datatype Sample = Sample(genericFields: seq<GenericField>, radii: seq<Radius>)

  datatype Element = Element(genericFields: seq<GenericField>, samples: seq<Sample>)

  /** The attributes of a `TridasObject`; only title and type are open access. */
  datatype ObjectAttributes = ObjectAttributes(
    title: string,
    objectType: Option<string>,
    createdTimestamp: Option<string>,
    lastModifiedTimestamp: Option<string>,
    identifier: Option<string>,
    comments: Option<string>,
    coverage: Option<string>,
    creator: Option<string>,
    description: Option<string>,
    linkSeries: Option<string>,
    location: Option<string>,
    owner: Option<string>)

  /** `TridasObject`: objects nest. */
  datatype TObject = TObject(
    attributes: ObjectAttributes,
    files: seq<string>,
    genericFields: seq<GenericField>,
    elements: seq<Element>,
    objects: seq<TObject>)

  /**
   * The attributes of a `TridasProject` the core touches; the others (types,
   * laboratories, ...) are kept as they are and stand here as `title` and
   * `identifier`.
   */
  datatype ProjectAttributes = ProjectAttributes(
    title: string,
    identifier: Option<string>,
    createdTimestamp: Option<string>,
    lastModifiedTimestamp: Option<string>,
    comments: Option<string>,
    description: Option<string>,
    period: Option<string>,
    commissioner: Option<string>)

  /** The state of a project, as one value. */
  datatype ProjectModel = ProjectModel(
    attributes: ProjectAttributes,
    references: seq<string>,
    researches: seq<string>,
    files: seq<string>,
    genericFields: seq<GenericField>,
    objects: seq<TObject>,
    derivedSeries: seq<Series>)

  /** `TridasProject`: the root of the tree, changed in place. */
  class Project {
    var attributes: ProjectAttributes
    var references: seq<string>
    var researches: seq<string>
    var files: seq<string>
    var genericFields: seq<GenericField>
    var objects: seq<TObject>
    var derivedSeries: seq<Series>

    constructor (m: ProjectModel)
      ensures Model() == m
    {
      attributes := m.attributes;
      references := m.references;
      researches := m.researches;
      files := m.files;
      genericFields := m.genericFields;
      objects := m.objects;
      derivedSeries := m.derivedSeries;
    }

    function Model(): ProjectModel
      reads this
    {
      ProjectModel(attributes, references, researches, files, genericFields, objects, derivedSeries)
    }
  }
}
