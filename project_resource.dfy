/**
 * `ProjectResource`: the `/project` endpoints.  What is modelled is each
 * endpoint's decision (which status it answers, which restrictors it runs on
 * the stored TRiDaS tree and in which order), the first-match file lookup,
 * the owner/admin gate of the permission endpoint, the search request behind
 * the project list, and the XML of the project list.
 *
 * The services the endpoints call are inputs: `authenticate()` gives an
 * `Authentication`, the data service's `getProject` gives the stored project
 * or nothing (its `DataServiceException`), and what the stored project grants
 * the requesting user is an `Access`.
 */
module ProjectResource {
  import opened Wrappers
  import opened Text
  import opened PermissionLevel
  import opened XmlStringUtil
  import opened Tridas
  import opened Restriction
  import TridasPermissionRestrictor
  import TridasRequestedLevelRestrictor
  import opened AbstractProjectResource

  /** The response statuses the endpoints use. */
  datatype Status = OK | UNAUTHORIZED | NOT_FOUND | INTERNAL_SERVER_ERROR

  datatype User = User(id: string, isAdmin: bool)

  /** `authenticate()`: a user, `null`, or a `ServiceException`. */
  datatype Authentication = Authenticated(user: User) | NoUser | AuthenticationFailed

  /**
   * What a stored project grants the requesting user:
   * `isDownloadAllowed`, `isViewingAllowed`, `getEffectivePermissionLevel`.
   */
  datatype Access = Access(downloadAllowed: bool, viewingAllowed: bool, effectiveLevel: Level)

  // --- MAP_ENTITYLEVEL_TO_PERMISSION ---------------------------------------

  /** `MAP_ENTITYLEVEL_TO_PERMISSION.get(entityLevel)`; `None` when the map has no such key. */
  function PermissionOfEntityLevel(entityLevel: string): Option<Level>
  {
    if entityLevel == "project" then Some(PROJECT)
    else if entityLevel == "object" then Some(OBJECT)
    else if entityLevel == "element" then Some(ELEMENT)
    else if entityLevel == "sample" then Some(SAMPLE)
    else if entityLevel == "radius" then Some(RADIUS)
    else if entityLevel == "series" then Some(SERIES)
    else if entityLevel == "values" then Some(VALUES)
    else None
  }

  /**
   * The map is the inverse of `MAP_PERMISSION_TO_ENTITYLEVEL` without
   * "minimal": its keys are exactly the entity-level names of PROJECT to
   * VALUES, and each maps back to its level.
   */
  lemma EntityLevelMapsAreInverse(l: Level, entityLevel: string)
    ensures l != MINIMAL ==> PermissionOfEntityLevel(EntityLevelName(l)) == Some(l)
    ensures PermissionOfEntityLevel(EntityLevelName(MINIMAL)) == None
    ensures PermissionOfEntityLevel(entityLevel).Some? ==>
      && PermissionOfEntityLevel(entityLevel).value != MINIMAL
      && EntityLevelName(PermissionOfEntityLevel(entityLevel).value) == entityLevel
  {
  }

  // --- the TRiDaS endpoints ------------------------------------------------

  /** One `restrictToPermitted` call: which restrictor, at which level. */
  datatype Step = Step(restrictor: Restrictor, level: Level)

  /** What an endpoint does: answer with a status, or serve the tree after these restrictions. */
  datatype Decision = Respond(status: Status) | Serve(steps: seq<Step>)

  /** The tree after the restrictions, applied in order. */
  function Apply(p: ProjectModel, steps: seq<Step>): ProjectModel
    decreases |steps|
  {
    if steps == [] then p else Apply(RestrictedProject(steps[0].restrictor, p, steps[0].level), steps[1..])
  }

  /** One restriction, or two in a row. */
  lemma ApplyShort(p: ProjectModel, a: Step, b: Step)
    ensures Apply(p, [a]) == RestrictedProject(a.restrictor, p, a.level)
    ensures Apply(p, [a, b]) ==
      RestrictedProject(b.restrictor, RestrictedProject(a.restrictor, p, a.level), b.level)
  {
    assert [a][1..] == [];
    assert [a, b][1..] == [b];
    assert [b][1..] == [];
    var q := RestrictedProject(a.restrictor, p, a.level);
    assert Apply(p, [a, b]) == Apply(q, [b]);
    assert Apply(q, [b]) == Apply(RestrictedProject(b.restrictor, q, b.level), []);
  }

  /**
   * The part both TRiDaS endpoints share once the user is known and the
   * project is found: download permission serves the whole tree, otherwise
   * viewing permission is required.
   */
  function Authorize(auth: Authentication, found: bool, access: Access, restrictions: seq<Step>): Decision
  {
    match auth
    case NoUser => Respond(UNAUTHORIZED)
    case AuthenticationFailed => Respond(INTERNAL_SERVER_ERROR)
    case Authenticated(_) =>
      if !found then Respond(INTERNAL_SERVER_ERROR)
      else if access.downloadAllowed then Serve([])
      else if !access.viewingAllowed then Respond(UNAUTHORIZED)
      else Serve(restrictions)
  }

  /** `GET /project/{sid}/tridas`. */
  function TridasDecision(auth: Authentication, found: bool, access: Access): Decision
  {
    Authorize(auth, found, access, [Step(PermissionRestrictor, access.effectiveLevel)])
  }

  /**
   * `GET /project/{sid}/tridas/{entityLevel}`: the requested level first,
   * then the effective level only when it does not permit the requested one.
   */
  function TridasForLevelDecision(entityLevel: string, auth: Authentication, found: bool, access: Access): Decision
  {
    match PermissionOfEntityLevel(entityLevel)
    case None => Respond(NOT_FOUND)
    case Some(requested) =>
      var first := [Step(RequestedLevelRestrictor, requested)];
      if IsPermittedBy(requested, access.effectiveLevel) then Authorize(auth, found, access, first)
      else Authorize(auth, found, access, first + [Step(PermissionRestrictor, access.effectiveLevel)])
  }

  /**
   * `/tridas` answers 401 without a user or when the user may neither
   * download nor view; a user who may download gets the whole tree; anyone
   * else who may view gets the tree restricted to the effective level, with
   * nothing finer than that level left in it.
   */
  lemma TridasDecisionCases(auth: Authentication, found: bool, access: Access, p: ProjectModel)
    ensures var d := TridasDecision(auth, found, access);
      && (d == Respond(UNAUTHORIZED) <==>
            auth.NoUser? || (auth.Authenticated? && found && !access.downloadAllowed && !access.viewingAllowed))
      && (d.Serve? <==> auth.Authenticated? && found && (access.downloadAllowed || access.viewingAllowed))
      && (d.Serve? && access.downloadAllowed ==> Apply(p, d.steps) == p)
      && (d.Serve? && !access.downloadAllowed ==>
            && Apply(p, d.steps) == RestrictedProject(PermissionRestrictor, p, access.effectiveLevel)
            && ProjectWithin(Apply(p, d.steps), access.effectiveLevel))
  {
    ProjectRestrictedIsWithin(PermissionRestrictor, p, access.effectiveLevel);
    ApplyShort(p, Step(PermissionRestrictor, access.effectiveLevel), Step(PermissionRestrictor, access.effectiveLevel));
  }

  /**
   * `/tridas/{entityLevel}` answers 404 for an unknown level name before
   * anything else.  A user who may download gets the whole tree whatever
   * was requested; anyone else who may view gets a tree with nothing finer
   * than the stricter of the requested and the effective level.
   */
  lemma TridasForLevelDecisionCases(entityLevel: string, auth: Authentication, found: bool, access: Access, p: ProjectModel)
    ensures var d := TridasForLevelDecision(entityLevel, auth, found, access);
      && (d == Respond(NOT_FOUND) <==> PermissionOfEntityLevel(entityLevel).None?)
      && (d == Respond(UNAUTHORIZED) <==>
            PermissionOfEntityLevel(entityLevel).Some? &&
            (auth.NoUser? || (auth.Authenticated? && found && !access.downloadAllowed && !access.viewingAllowed)))
      && (d.Serve? && access.downloadAllowed ==> Apply(p, d.steps) == p)
      && (d.Serve? && !access.downloadAllowed ==>
            ProjectWithin(Apply(p, d.steps), Stricter(PermissionOfEntityLevel(entityLevel).value, access.effectiveLevel)))
  {
    var d := TridasForLevelDecision(entityLevel, auth, found, access);
    if d.Serve? && !access.downloadAllowed {
      var requested := PermissionOfEntityLevel(entityLevel).value;
      var eff := access.effectiveLevel;
      var q := RestrictedProject(RequestedLevelRestrictor, p, requested);
      ProjectRestrictedIsWithin(RequestedLevelRestrictor, p, requested);
      ApplyShort(p, Step(RequestedLevelRestrictor, requested), Step(PermissionRestrictor, eff));
      if !IsPermittedBy(requested, eff) {
        ProjectRestrictedWithin(PermissionRestrictor, q, requested, eff);
      }
    }
  }

  /** Runs one restriction step on the stored tree. */
  method RunStep(project: Project, step: Step)
    modifies project
    ensures project.Model() == RestrictedProject(step.restrictor, old(project.Model()), step.level)
  {
    if step.restrictor == PermissionRestrictor {
      TridasPermissionRestrictor.RestrictProject(project, step.level);
    } else {
      TridasRequestedLevelRestrictor.RestrictProject(project, step.level);
    }
  }

  /** The set of objects an endpoint may change: the stored tree, when there is one. */
  function Stored(stored: Option<Project>): set<object>
  {
    if stored.Some? then {stored.value} else {}
  }

  /**
   * `getProjectTridasBySid`: the status, and the stored tree as it is
   * marshalled (marshalling itself is not modelled).
   */
  method GetProjectTridasBySid(auth: Authentication, stored: Option<Project>, access: Access) returns (status: Status)
    modifies Stored(stored)
    ensures var d := TridasDecision(auth, stored.Some?, access);
      && (d.Respond? ==> status == d.status && (stored.Some? ==> stored.value.Model() == old(stored.value.Model())))
      && (d.Serve? ==> status == OK && stored.value.Model() == Apply(old(stored.value.Model()), d.steps))
  {
    match auth {
      case NoUser => return UNAUTHORIZED;
      case AuthenticationFailed => return INTERNAL_SERVER_ERROR;
      case Authenticated(_) =>
    }
    if stored.None? {
      return INTERNAL_SERVER_ERROR;
    }
    var project := stored.value;
    if !access.downloadAllowed {
      if !access.viewingAllowed {
        return UNAUTHORIZED;
      }
      ghost var p0 := project.Model();
      RunStep(project, Step(PermissionRestrictor, access.effectiveLevel));
      ApplyShort(p0, Step(PermissionRestrictor, access.effectiveLevel), Step(PermissionRestrictor, access.effectiveLevel));
    }
    status := OK;
  }

  /** `getProjectTridasBySidForLevel`. */
  method GetProjectTridasBySidForLevel(entityLevel: string, auth: Authentication, stored: Option<Project>, access: Access)
    returns (status: Status)
    modifies Stored(stored)
    ensures var d := TridasForLevelDecision(entityLevel, auth, stored.Some?, access);
      && (d.Respond? ==> status == d.status && (stored.Some? ==> stored.value.Model() == old(stored.value.Model())))
      && (d.Serve? ==> status == OK && stored.value.Model() == Apply(old(stored.value.Model()), d.steps))
  {
    var requestedLevel := PermissionOfEntityLevel(entityLevel);
    if requestedLevel.None? {
      return NOT_FOUND;
    }
    match auth {
      case NoUser => return UNAUTHORIZED;
      case AuthenticationFailed => return INTERNAL_SERVER_ERROR;
      case Authenticated(_) =>
    }
    if stored.None? {
      return INTERNAL_SERVER_ERROR;
    }
    var project := stored.value;
    if !access.downloadAllowed {
      if !access.viewingAllowed {
        return UNAUTHORIZED;
      }
      var requested := requestedLevel.value;
      ghost var p0 := project.Model();
      ApplyShort(p0, Step(RequestedLevelRestrictor, requested), Step(PermissionRestrictor, access.effectiveLevel));
      RunStep(project, Step(RequestedLevelRestrictor, requested));
      if !IsPermittedBy(requested, access.effectiveLevel) {
        RunStep(project, Step(PermissionRestrictor, access.effectiveLevel));
      }
    }
    status := OK;
  }

  // --- associated and original files ---------------------------------------

  /** A file unit of a project: `getFileName` and `getUnitId`. */
  datatype BinaryUnit = BinaryUnit(fileName: string, unitId: string)

  /** The first unit whose file name equals `fileName` exactly (case matters). */
  function FirstUnitNamed(units: seq<BinaryUnit>, fileName: string): (r: Option<BinaryUnit>)
    ensures r.Some? ==> r.value in units && r.value.fileName == fileName
    ensures r.None? <==> forall u :: u in units ==> u.fileName != fileName
  {
    if units == [] then None
    else if units[0].fileName == fileName then Some(units[0])
    else FirstUnitNamed(units[1..], fileName)
  }

  /** No unit before the one found carries the name. */
  lemma {:induction false} FirstUnitNamedIsFirst(units: seq<BinaryUnit>, fileName: string)
    ensures var r := FirstUnitNamed(units, fileName);
      r.Some? ==> exists k :: 0 <= k < |units| && units[k] == r.value
                              && forall j :: 0 <= j < k ==> units[j].fileName != fileName
  {
    var r := FirstUnitNamed(units, fileName);
    if units != [] && r.Some? && units[0].fileName != fileName {
      FirstUnitNamedIsFirst(units[1..], fileName);
      var k :| 0 <= k < |units[1..]| && units[1..][k] == r.value
        && forall j :: 0 <= j < k ==> units[1..][j].fileName != fileName;
      assert units[k + 1] == r.value;
    }
  }

  /** The search loop, which stops at the first match. */
  method FindUnitByName(units: seq<BinaryUnit>, fileName: string) returns (requestedUnit: Option<BinaryUnit>)
    ensures requestedUnit == FirstUnitNamed(units, fileName)
  {
    requestedUnit := None;
    var i := 0;
    while i < |units|
      invariant 0 <= i <= |units|
      invariant FirstUnitNamed(units, fileName) == FirstUnitNamed(units[i..], fileName)
    {
      if units[i].fileName == fileName {
        requestedUnit := Some(units[i]);
        break;
      }
      assert units[i..][1..] == units[i + 1..];
      i := i + 1;
    }
  }

  /**
   * `getAssociatedFilesByProjectSid` and `getOriginalFilesByProjectSid`
   * (the same code over the project's associated or original file units):
   * 401 without a user or without download permission, before any lookup;
   * 404 when no unit has the name; otherwise the first unit with that name,
   * whose bytes are served.
   */
  method GetFileByName(auth: Authentication, found: bool, downloadAllowed: bool, units: seq<BinaryUnit>, fileName: string)
    returns (status: Status, unit: Option<BinaryUnit>)
    ensures status == OK <==> unit.Some?
    ensures status == UNAUTHORIZED <==> auth.NoUser? || (auth.Authenticated? && found && !downloadAllowed)
    ensures status == NOT_FOUND <==>
      auth.Authenticated? && found && downloadAllowed && forall u :: u in units ==> u.fileName != fileName
    ensures status == INTERNAL_SERVER_ERROR <==> auth.AuthenticationFailed? || (auth.Authenticated? && !found)
    ensures unit.Some? ==> unit == FirstUnitNamed(units, fileName) && unit.value.fileName == fileName
  {
    unit := None;
    match auth {
      case NoUser => return UNAUTHORIZED, None;
      case AuthenticationFailed => return INTERNAL_SERVER_ERROR, None;
      case Authenticated(_) =>
    }
    if !found {
      return INTERNAL_SERVER_ERROR, None;
    }
    if !downloadAllowed {
      return UNAUTHORIZED, None;
    }
    var requestedUnit := FindUnitByName(units, fileName);
    if requestedUnit.None? {
      status := NOT_FOUND;
    } else {
      status, unit := OK, requestedUnit;
    }
  }

  // --- the permission endpoint ---------------------------------------------

  datatype UserPermission = UserPermission(userId: string, level: Level)

  /** `ProjectPermissionMetadata`: the default level and the per-user levels. */
  datatype PermissionMetadata = PermissionMetadata(defaultLevel: Level, userPermissions: seq<UserPermission>)

  /** The stored project as the permission endpoint reads it. */
  datatype StoredProject = StoredProject(sid: string, ownerId: string, permission: PermissionMetadata)

  /** Only an administrator or the project's owner may read its permissions. */
  predicate MayReadPermission(user: User, ownerId: string)
  {
    user.isAdmin || user.id == ownerId
  }

  function UserPermissionXml(up: UserPermission): string
  {
    "<userPermission>" + ElementString("userId", up.userId) + ElementString("level", Name(up.level)) + "</userPermission>"
  }

  function UserPermissionsXml(ups: seq<UserPermission>): string
  {
    if ups == [] then [] else UserPermissionsXml(ups[..|ups| - 1]) + UserPermissionXml(ups[|ups| - 1])
  }

  /** The start of the permission document: the project, its owner and its default level. */
  function PermissionHead(p: StoredProject): string
  {
    XML_INSTRUCTION_STR + "<permission>"
    + ElementString("projectId", p.sid)
    + ElementString("ownerId", p.ownerId)
    + ElementString("defaultLevel", Name(p.permission.defaultLevel))
  }

  /** The user permissions, in a block of their own, which is left out when there are none. */
  function UserPermissionsBlock(ups: seq<UserPermission>): string
  {
    if ups == [] then [] else "<userPermissions>" + UserPermissionsXml(ups) + "</userPermissions>"
  }

  /** The permission document; levels are written with the enum's own names here. */
  function PermissionMetadataXml(p: StoredProject): string
  {
    PermissionHead(p) + UserPermissionsBlock(p.permission.userPermissions) + "</permission>"
  }

  /** Rendering the user permissions is rendering each in turn. */
  lemma {:induction false} UserPermissionsXmlAppend(a: seq<UserPermission>, b: seq<UserPermission>)
    ensures UserPermissionsXml(a + b) == UserPermissionsXml(a) + UserPermissionsXml(b)
    decreases |b|
  {
    if b == [] {
      assert a + b == a;
    } else {
      var n := |b| - 1;
      assert (a + b)[..|a + b| - 1] == a + b[..n];
      assert (a + b)[|a + b| - 1] == b[n];
      UserPermissionsXmlAppend(a, b[..n]);
      AppendAssociative(UserPermissionsXml(a), UserPermissionsXml(b[..n]), UserPermissionXml(b[n]));
    }
  }

  /**
   * The user-permission block holds one `<userPermission>` per entry, in
   * order, with the user and the level's enum name; it is there exactly
   * when there are entries.
   */
  lemma UserPermissionsListed(ups: seq<UserPermission>, up: UserPermission)
    ensures UserPermissionsBlock(ups) == [] <==> ups == []
    ensures UserPermissionsXml(ups + [up]) == UserPermissionsXml(ups)
      + ("<userPermission>" + ElementString("userId", up.userId) + ElementString("level", Name(up.level)) + "</userPermission>")
  {
    UserPermissionsXmlAppend(ups, [up]);
    assert [up][..0] == [];
  }

  /**
   * The permission document spells levels as the enum names, never as the
   * lower-case entity-level names of the public listing.
   */
  lemma PermissionLevelSpellings(l: Level)
    ensures Name(l) != EntityLevelName(l)
    ensures PermissionOfEntityLevel(Name(l)) == None
  {
  }

  /** Appends the start of the permission document. */
  method AppendPermissionHead(sw: Writer, p: StoredProject)
    modifies sw
    ensures sw.text == old(sw.text) + PermissionHead(p)
  {
    ghost var t0 := sw.text;
    var projectId := ElementString("projectId", p.sid);
    var ownerId := ElementString("ownerId", p.ownerId);
    var defaultLevel := ElementString("defaultLevel", Name(p.permission.defaultLevel));
    sw.Append(XML_INSTRUCTION_STR);
    sw.Append("<permission>");
    AppendAssociative(t0, XML_INSTRUCTION_STR, "<permission>");
    ghost var acc := XML_INSTRUCTION_STR + "<permission>";
    sw.Append(projectId);
    AppendAssociative(t0, acc, projectId);
    acc := acc + projectId;
    sw.Append(ownerId);
    AppendAssociative(t0, acc, ownerId);
    acc := acc + ownerId;
    sw.Append(defaultLevel);
    AppendAssociative(t0, acc, defaultLevel);
  }

  /** Appends the user-permission block, or nothing when there are no entries. */
  method AppendUserPermissionsBlock(sw: Writer, ups: seq<UserPermission>)
    modifies sw
    ensures sw.text == old(sw.text) + UserPermissionsBlock(ups)
  {
    if ups != [] {
      sw.Append("<userPermissions>");
      AppendUserPermissions(sw, ups);
      AppendAssociative(old(sw.text), "<userPermissions>", UserPermissionsXml(ups));
      sw.Append("</userPermissions>");
      AppendAssociative(old(sw.text), "<userPermissions>" + UserPermissionsXml(ups), "</userPermissions>");
    }
  }

  /** Appends one `<userPermission>` element. */
  method AppendUserPermission(sw: Writer, up: UserPermission)
    modifies sw
    ensures sw.text == old(sw.text) + UserPermissionXml(up)
  {
    var userId := ElementString("userId", up.userId);
    var level := ElementString("level", Name(up.level));
    sw.Append("<userPermission>");
    sw.Append(userId);
    AppendAssociative(old(sw.text), "<userPermission>", userId);
    sw.Append(level);
    AppendAssociative(old(sw.text), "<userPermission>" + userId, level);
    sw.Append("</userPermission>");
    AppendAssociative(old(sw.text), "<userPermission>" + userId + level, "</userPermission>");
  }

  /** Listing one more entry adds its element at the end. */
  lemma UserPermissionsXmlSnoc(ups: seq<UserPermission>, i: nat)
    requires i < |ups|
    ensures UserPermissionsXml(ups[..i + 1]) == UserPermissionsXml(ups[..i]) + UserPermissionXml(ups[i])
  {
    assert ups[..i + 1][..i] == ups[..i];
  }

  /** Appends one `<userPermission>` per entry, in order. */
  method AppendUserPermissions(sw: Writer, ups: seq<UserPermission>)
    modifies sw
    ensures sw.text == old(sw.text) + UserPermissionsXml(ups)
  {
    ghost var head := sw.text;
    for i := 0 to |ups|
      invariant sw.text == head + UserPermissionsXml(ups[..i])
    {
      ghost var acc := UserPermissionsXml(ups[..i]);
      AppendUserPermission(sw, ups[i]);
      AppendAssociative(head, acc, UserPermissionXml(ups[i]));
      UserPermissionsXmlSnoc(ups, i);
    }
    assert ups[..|ups|] == ups;
  }

  /** `getPermission`. */
  method GetPermission(auth: Authentication, stored: Option<StoredProject>) returns (status: Status, body: string)
    ensures status == OK <==>
      auth.Authenticated? && stored.Some? && MayReadPermission(auth.user, stored.value.ownerId)
    ensures status == UNAUTHORIZED <==>
      auth.NoUser? || (auth.Authenticated? && stored.Some? && !MayReadPermission(auth.user, stored.value.ownerId))
    ensures status == OK ==> body == PermissionMetadataXml(stored.value)
    ensures status != OK ==> body == []
  {
    body := [];
    match auth {
      case NoUser => return UNAUTHORIZED, [];
      case AuthenticationFailed => return INTERNAL_SERVER_ERROR, [];
      case Authenticated(_) =>
    }
    if stored.None? {
      return INTERNAL_SERVER_ERROR, [];
    }
    var user := auth.user;
    var project := stored.value;
    if !(user.isAdmin || user.id == project.ownerId) {
      return UNAUTHORIZED, [];
    }
    var sw := new Writer();
    AppendPermissionHead(sw, project);
    assert [] + PermissionHead(project) == PermissionHead(project);
    AppendUserPermissionsBlock(sw, project.permission.userPermissions);
    sw.Append("</permission>");
    body := sw.text;
    status := OK;
  }

  // --- the project list ----------------------------------------------------

  /** A `modFrom`/`modUntil` query parameter: absent, a parsed date, or text the date parser rejects. */
  datatype DateParam = Absent | Parsed(instant: string) | Malformed

  datatype SortField = LastStateChangeDescending | PidAscending

  const PUBLISHED: string := "PUBLISHED"

  /**
   * The search request behind the project list: paging, the sort order, the
   * optional modification period (an open end is `None`) and the state the
   * projects must be in.
   */
  datatype SearchRequest = SearchRequest(
    offset: int,
    limit: int,
    sort: SortField,
    modifiedPeriod: Option<(Option<string>, Option<string>)>,
    state: string)

  function DateOf(d: DateParam): Option<string>
  {
    if d.Parsed? then Some(d.instant) else None
  }

  /** The request `getProjects` sends, or the status it answers when a date does not parse. */
  function ProjectsRequest(modFrom: DateParam, modUntil: DateParam, offset: int, limit: int): Result<SearchRequest, Status>
  {
    if modFrom != Absent || modUntil != Absent then
      if modFrom == Malformed || modUntil == Malformed then Failure(NOT_FOUND)
      else Success(SearchRequest(offset, limit, LastStateChangeDescending,
                                 Some((DateOf(modFrom), DateOf(modUntil))), PUBLISHED))
    else Success(SearchRequest(offset, limit, PidAscending, None, PUBLISHED))
  }

  /**
   * Only published projects are listed, with the paging asked for; the list
   * is sorted by last state change, newest first, exactly when a
   * modification date is given, and by PID otherwise; a date that does not
   * parse gives 404.
   */
  lemma ProjectsRequestCases(modFrom: DateParam, modUntil: DateParam, offset: int, limit: int)
    ensures var r := ProjectsRequest(modFrom, modUntil, offset, limit);
      && (r.Failure? <==> modFrom == Malformed || modUntil == Malformed)
      && (r.Failure? ==> r.error == NOT_FOUND)
      && (r.Success? ==>
            && r.value.state == PUBLISHED
            && r.value.offset == offset && r.value.limit == limit
            && (r.value.sort == LastStateChangeDescending <==> modFrom != Absent || modUntil != Absent)
            && (r.value.sort == PidAscending <==> modFrom == Absent && modUntil == Absent)
            && (r.value.modifiedPeriod.Some? <==> modFrom != Absent || modUntil != Absent))
  {
  }

  // --- the listing XML -----------------------------------------------------

  /** `appendSearchResultDataAsXml` of this resource: the public data, then the gated sections, then the permission. */
  function SearchResultDataXml(sb: SearchRecord): string
  {
    PublicDataXml(sb) + PublicLocationXml(sb) + PublicTimeRangeXml(sb)
    + PublicTaxonsXml(sb) + PublicTypesXml(sb) + PublicDescriptionXml(sb) + PermissionXml(sb)
  }

  method AppendSearchResultDataAsXml(sw: Writer, sb: SearchRecord)
    modifies sw
    ensures sw.text == old(sw.text) + SearchResultDataXml(sb)
  {
    ghost var t0 := sw.text;
    AppendProjectPublicDataAsXml(sw, sb);
    AppendProjectPublicLocationAsXml(sw, sb);
    AppendAssociative(t0, PublicDataXml(sb), PublicLocationXml(sb));
    ghost var acc := PublicDataXml(sb) + PublicLocationXml(sb);
    AppendProjectPublicTimeRangeAsXml(sw, sb);
    AppendAssociative(t0, acc, PublicTimeRangeXml(sb));
    acc := acc + PublicTimeRangeXml(sb);
    AppendProjectPublicTaxonsAsXml(sw, sb);
    AppendAssociative(t0, acc, PublicTaxonsXml(sb));
    acc := acc + PublicTaxonsXml(sb);
    AppendProjectPublicTypesAsXml(sw, sb);
    AppendAssociative(t0, acc, PublicTypesXml(sb));
    acc := acc + PublicTypesXml(sb);
    AppendProjectPublicDescriptionAsXml(sw, sb);
    AppendAssociative(t0, acc, PublicDescriptionXml(sb));
    acc := acc + PublicDescriptionXml(sb);
    AppendProjectPermissionAsXml(sw, sb);
    AppendAssociative(t0, acc, PermissionXml(sb));
  }

  /** The element around one hit's data. */
  function ProjectElement(data: string): string
  {
    "<project>" + data + "</project>"
  }

  /** One `<project>` element per rendered hit, in hit order. */
  function ProjectsXml(data: seq<string>): string
  {
    if data == [] then [] else ProjectsXml(data[..|data| - 1]) + ProjectElement(data[|data| - 1])
  }

  /** The list of a concatenation of hits is the concatenation of their lists. */
  lemma {:induction false} ProjectsXmlAppend(a: seq<string>, b: seq<string>)
    ensures ProjectsXml(a + b) == ProjectsXml(a) + ProjectsXml(b)
    decreases |b|
  {
    if b == [] {
      assert a + b == a;
    } else {
      var n := |b| - 1;
      assert (a + b)[..|a + b| - 1] == a + b[..n];
      assert (a + b)[|a + b| - 1] == b[n];
      ProjectsXmlAppend(a, b[..n]);
      AppendAssociative(ProjectsXml(a), ProjectsXml(b[..n]), ProjectElement(b[n]));
    }
  }

  /** Rendering one more hit adds that hit's element at the end. */
  lemma ProjectsXmlPush(data: seq<string>, last: string)
    ensures ProjectsXml(data + [last]) == ProjectsXml(data) + ProjectElement(last)
  {
    assert (data + [last])[..|data|] == data;
  }

  /** A single hit is one `<project>` element holding that hit's data. */
  lemma ProjectsXmlOne(data: string)
    ensures ProjectsXml([data]) == "<project>" + data + "</project>"
  {
    assert [data][..0] == [];
  }

  /** Each hit rendered by `appendSearchResultDataAsXml`, in hit order. */
  function RenderedHits(hits: seq<SearchRecord>): (data: seq<string>)
    ensures |data| == |hits|
  {
    if hits == [] then [] else RenderedHits(hits[..|hits| - 1]) + [SearchResultDataXml(hits[|hits| - 1])]
  }

  /** Rendering one more hit adds its data at the end. */
  lemma RenderedHitsNext(hits: seq<SearchRecord>, i: nat)
    requires i < |hits|
    ensures RenderedHits(hits[..i + 1]) == RenderedHits(hits[..i]) + [SearchResultDataXml(hits[i])]
  {
    assert hits[..i + 1][..i] == hits[..i];
  }

  /** The opening tag of the list, with the paging attributes. */
  function ProjectsOpenTag(totalHits: int, offset: int, limit: int): string
  {
    "<projects" + " total=\"" + IntToString(totalHits) + "\"" + " offset=\"" + IntToString(offset) + "\""
    + " limit=\"" + IntToString(limit) + "\"" + ">"
  }

  /** `getProjectListSearchResultAsXml`. */
  function ProjectListXml(totalHits: int, offset: int, limit: int, hits: seq<SearchRecord>): string
  {
    XML_INSTRUCTION_STR + ProjectsOpenTag(totalHits, offset, limit) + ProjectsXml(RenderedHits(hits)) + "</projects>"
  }

  /** Appends one hit of the list. */
  method AppendProject(sw: Writer, sb: SearchRecord)
    modifies sw
    ensures sw.text == old(sw.text) + ProjectElement(SearchResultDataXml(sb))
  {
    sw.Append("<project>");
    AppendSearchResultDataAsXml(sw, sb);
    AppendAssociative(old(sw.text), "<project>", SearchResultDataXml(sb));
    sw.Append("</project>");
    AppendAssociative(old(sw.text), "<project>" + SearchResultDataXml(sb), "</project>");
  }

  /** One round of the loop over the hits: the next hit's element goes after those before it. */
  method AppendNextProject(sw: Writer, ghost head: string, hits: seq<SearchRecord>, i: nat)
    requires i < |hits|
    requires sw.text == head + ProjectsXml(RenderedHits(hits[..i]))
    modifies sw
    ensures sw.text == head + ProjectsXml(RenderedHits(hits[..i + 1]))
  {
    ghost var before := RenderedHits(hits[..i]);
    AppendProject(sw, hits[i]);
    AppendAssociative(head, ProjectsXml(before), ProjectElement(SearchResultDataXml(hits[i])));
    ProjectsXmlPush(before, SearchResultDataXml(hits[i]));
    RenderedHitsNext(hits, i);
  }

  /** Appends the hits of the list, one `<project>` element each, in order. */
  method AppendProjects(sw: Writer, hits: seq<SearchRecord>)
    modifies sw
    ensures sw.text == old(sw.text) + ProjectsXml(RenderedHits(hits))
  {
    ghost var head := sw.text;
    for i := 0 to |hits|
      invariant sw.text == head + ProjectsXml(RenderedHits(hits[..i]))
    {
      AppendNextProject(sw, head, hits, i);
    }
    assert hits[..|hits|] == hits;
  }

  method GetProjectListSearchResultAsXml(totalHits: int, offset: int, limit: int, hits: seq<SearchRecord>)
    returns (xml: string)
    ensures xml == ProjectListXml(totalHits, offset, limit, hits)
  {
    var sw := new Writer();
    sw.Append(XML_INSTRUCTION_STR);
    assert [] + XML_INSTRUCTION_STR == XML_INSTRUCTION_STR;
    sw.Append(ProjectsOpenTag(totalHits, offset, limit));
    AppendProjects(sw, hits);
    sw.Append("</projects>");
    xml := sw.text;
  }

  /** `getProjectSearchResultAsXml`: a single project. */
  function ProjectXml(sb: SearchRecord): string
  {
    XML_INSTRUCTION_STR + ProjectElement(SearchResultDataXml(sb))
  }

  /** A single project is rendered as the one `<project>` element a list holding only that hit would carry. */
  lemma ProjectXmlIsListElement(sb: SearchRecord)
    ensures ProjectXml(sb) == XML_INSTRUCTION_STR + ProjectsXml(RenderedHits([sb]))
  {
    assert [sb][..0] == [];
    ProjectsXmlOne(SearchResultDataXml(sb));
  }

  method GetProjectSearchResultAsXml(sb: SearchRecord) returns (xml: string)
    ensures xml == ProjectXml(sb)
  {
    var sw := new Writer();
    sw.Append(XML_INSTRUCTION_STR);
    assert [] + XML_INSTRUCTION_STR == XML_INSTRUCTION_STR;
    AppendProject(sw, sb);
    xml := sw.text;
  }

}
