/**
 * `TridasRequestedLevelRestrictor`: the restrictor used when a client asks
 * for a coarser view than it is permitted.  It inherits the per-layer
 * descent of `TridasPermissionRestrictor` (with its own wording) and
 * differs at project level: at PROJECT the objects are removed, each
 * leaving a placeholder, instead of being reduced to open access.
 */
module TridasRequestedLevelRestrictor {
  import opened PermissionLevel
  import opened Tridas
  import opened Restriction
  import opened TridasPermissionRestrictor

  /** `removeObjects(project, level)`: one placeholder per top-level object (none for sub-objects), then the list is cleared. */
  method RemoveObjects(project: Project, level: Level)
    modifies project
    ensures project.Model() == WithoutObjects(RequestedLevelRestrictor, old(project.Model()), level)
  {
    project.genericFields := AddPlaceholders(RequestedLevelRestrictor, project.genericFields,
                                             DisplayString(ObjectClass), |project.objects|, level);
    project.objects := [];
  }

  /** `restrictToPermitted(project, level)` of the requested-level restrictor. */
  method RestrictProject(project: Project, level: Level)
    modifies project
    ensures project.Model() == RestrictedProject(RequestedLevelRestrictor, old(project.Model()), level)
  {
    var r := RequestedLevelRestrictor;
    match level {
      case MINIMAL =>
        RestrictProjectToOpenAccess(project);
      case PROJECT =>
        RemoveObjects(project, level);
        RemoveDerivedSeries(r, project, level);
        project.genericFields := project.genericFields + [IncompleteNote(r, level)];
      case OBJECT =>
        RemoveDerivedSeries(r, project, level);
        Descend(r, project, level);
      case ELEMENT =>
        RemoveDerivedSeries(r, project, level);
        Descend(r, project, level);
      case SAMPLE =>
        RemoveDerivedSeries(r, project, level);
        Descend(r, project, level);
      case RADIUS =>
        RemoveDerivedSeries(r, project, level);
        Descend(r, project, level);
      case SERIES =>
        Descend(r, project, level);
      case VALUES =>
    }
  }
}
