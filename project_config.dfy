/** The project configuration (the "Sprint 0" settings: definition of done, development
    patterns, technical infrastructure, initial models). Anyone who may read the project
    reads it; only an active SCRUM_MASTER member or the owner writes it, and settings marked
    as system settings can be neither changed nor deleted. */
module ProjectConfig {
  import opened Wrappers
  import opened Scrum
  import Collections

  /** A row of the configuration table; `kind` is the stored `type` column. */
  datatype Config = Config(
    id: Id,
    projectId: Id,
    key: string,
    value: string,
    kind: string,
    category: string,
    description: Option<string>,
    isSystemSetting: bool)

  /** The body of `createConfig` and of each `batchCreateConfigs` item. */
  datatype CreateConfigDto = CreateConfigDto(
    key: string,
    value: string,
    kind: string,
    category: string,
    description: Option<string>,
    isSystemSetting: Option<bool>)

  /** The body of `updateConfig`: only the value and the description can change; an absent
      field is left as it is. */
  datatype UpdateConfigDto = UpdateConfigDto(value: Option<string>, description: Option<string>)

  /** What `getProjectConfigs` answers. */
  datatype Listing = Listing(all: seq<Config>, byCategory: map<string, seq<Config>>, categories: seq<string>)

  /** What `initializeSprint0` answers. */
  datatype Initialized = Initialized(count: nat, configs: seq<Config>)

  // ---------------------------------------------------------------------------------
  // Table invariant and reads

  predicate UniqueIds(rows: seq<Config>) {
    forall i, j :: 0 <= i < j < |rows| ==> rows[i].id != rows[j].id
  }

  predicate IdUsed(rows: seq<Config>, id: Id) {
    exists k :: 0 <= k < |rows| && rows[k].id == id
  }

  /** Ids the database may hand to new rows: distinct and not yet used. */
  predicate FreshIds(rows: seq<Config>, ids: seq<Id>) {
    Collections.NoDuplicates(ids) && forall k :: 0 <= k < |ids| ==> !IdUsed(rows, ids[k])
  }

  function ProjectKey(c: Config): Id { c.projectId }

  function CategoryKey(c: Config): string { c.category }

  /** `findMany({ where: { projectId } })`, in table order. */
  function OfProject(rows: seq<Config>, projectId: Id): (r: seq<Config>)
    ensures forall c :: c in r <==> c in rows && c.projectId == projectId
  {
    Collections.Keyed(rows, ProjectKey, projectId)
  }

  /** `findMany({ where: { projectId, category } })`, in table order. */
  function InCategory(rows: seq<Config>, projectId: Id, category: string): (r: seq<Config>)
    ensures forall c :: c in r <==> c in rows && c.projectId == projectId && c.category == category
  {
    Collections.Keyed(OfProject(rows, projectId), CategoryKey, category)
  }

  /** `findFirst({ where: { projectId, key, category } })` found a row. */
  predicate KeyTaken(rows: seq<Config>, projectId: Id, key: string, category: string) {
    exists k :: 0 <= k < |rows| && rows[k].projectId == projectId && rows[k].key == key && rows[k].category == category
  }

  /** `findUnique({ where: { id } })`. */
  function ConfigById(rows: seq<Config>, id: Id): (r: Option<Config>)
    ensures r.Some? <==> IdUsed(rows, id)
    ensures r.Some? ==> r.value in rows && r.value.id == id
  {
    if rows == [] then None
    else if rows[0].id == id then Some(rows[0])
    else ConfigById(rows[1..], id)
  }

  // ---------------------------------------------------------------------------------
  // Guards

  /** `verifyScrumMaster`: an active SCRUM_MASTER row of the caller in the project, or the
      owner. The project's visibility plays no part, and a missing project fails the rule. */
  predicate MayWrite(projects: map<Id, Project>, projectId: Id, userId: Id) {
    projectId in projects
    && (projects[projectId].ownerId == userId
        || exists m :: m in projects[projectId].members && m.userId == userId && m.isActive && m.role == SCRUM_MASTER)
  }

  function WriteCheck(projects: map<Id, Project>, projectId: Id, userId: Id): (r: Option<Failure>)
    ensures r.None? <==> MayWrite(projects, projectId, userId)
    ensures r.Some? ==> r.value.Forbidden?
  {
    if MayWrite(projects, projectId, userId) then None
    else Some(Forbidden("only the Scrum Master may change the project configuration"))
  }

  /** A writer always passes the read-access rule. */
  lemma WriterMayRead(projects: map<Id, Project>, projectId: Id, userId: Id)
    requires MayWrite(projects, projectId, userId)
    ensures VerifyAccess(projects, projectId, userId).Ok?
  {
    var p := projects[projectId];
    if p.ownerId != userId {
      var m :| m in p.members && m.userId == userId && m.isActive && m.role == SCRUM_MASTER;
      assert IsActiveMember(p, userId);
    }
  }

  /** The target of an update or a delete, in order: the writer rule, the row must be a
      configuration of the project, and it must not be a system setting. */
  function TargetCheck(projects: map<Id, Project>, rows: seq<Config>, projectId: Id, configId: Id, userId: Id): (r: Result<Config, Failure>)
    ensures r.Ok? <==> (MayWrite(projects, projectId, userId) && ConfigById(rows, configId).Some?
      && ConfigById(rows, configId).value.projectId == projectId && !ConfigById(rows, configId).value.isSystemSetting)
    ensures r.Ok? ==> r.value == ConfigById(rows, configId).value
    ensures !MayWrite(projects, projectId, userId) ==> r.Err? && r.error.Forbidden?
    ensures MayWrite(projects, projectId, userId) && (ConfigById(rows, configId).None? || ConfigById(rows, configId).value.projectId != projectId) ==>
      r.Err? && r.error.NotFound?
    ensures MayWrite(projects, projectId, userId) && ConfigById(rows, configId).Some?
      && ConfigById(rows, configId).value.projectId == projectId && ConfigById(rows, configId).value.isSystemSetting
      ==> r.Err? && r.error.Forbidden?
  {
    var check := WriteCheck(projects, projectId, userId);
    if check.Some? then Err(check.value)
    else
      var config := ConfigById(rows, configId);
      if config.None? || config.value.projectId != projectId then Err(NotFound("configuration"))
      else if config.value.isSystemSetting then Err(Forbidden("system settings cannot be changed"))
      else Ok(config.value)
  }

  // ---------------------------------------------------------------------------------
  // Rows

  /** `create({ data: { projectId, ...dto } })`; without a flag the row is not a system
      setting (the column's default). */
  function NewConfig(id: Id, projectId: Id, dto: CreateConfigDto): (c: Config)
    ensures c.id == id && c.projectId == projectId && c.key == dto.key && c.value == dto.value && c.category == dto.category
    ensures c.isSystemSetting <==> dto.isSystemSetting == Some(true)
  {
    Config(id, projectId, dto.key, dto.value, dto.kind, dto.category, dto.description, dto.isSystemSetting.GetOr(false))
  }

  /** One new row per item, in order. */
  function NewConfigs(projectId: Id, dtos: seq<CreateConfigDto>, ids: seq<Id>): (r: seq<Config>)
    requires |ids| >= |dtos|
    ensures |r| == |dtos|
    ensures forall k :: 0 <= k < |dtos| ==> r[k] == NewConfig(ids[k], projectId, dtos[k])
  {
    seq(|dtos|, k requires 0 <= k < |dtos| => NewConfig(ids[k], projectId, dtos[k]))
  }

  function Edited(c: Config, dto: UpdateConfigDto): Config {
    c.(value := dto.value.GetOr(c.value),
       description := if dto.description.Some? then dto.description else c.description)
  }

  /** An update changes only the value and the description: the row keeps its id, project,
      key, type, category and system flag; an empty body changes nothing, and applying a
      body twice is applying it once. */
  lemma EditedKeeps(c: Config, dto: UpdateConfigDto)
    ensures Edited(c, dto).(value := c.value, description := c.description) == c
    ensures dto == UpdateConfigDto(None, None) ==> Edited(c, dto) == c
    ensures Edited(Edited(c, dto), dto) == Edited(c, dto)
  {
  }

  function ReplaceConfig(rows: seq<Config>, id: Id, dto: UpdateConfigDto): (r: seq<Config>)
    ensures |r| == |rows|
    ensures forall k :: 0 <= k < |rows| ==> r[k] == if rows[k].id == id then Edited(rows[k], dto) else rows[k]
  {
    seq(|rows|, k requires 0 <= k < |rows| => if rows[k].id == id then Edited(rows[k], dto) else rows[k])
  }

  function DropConfig(rows: seq<Config>, id: Id): (r: seq<Config>)
    ensures forall c :: c in r <==> c in rows && c.id != id
  {
    if rows == [] then []
    else (if rows[0].id == id then [] else [rows[0]]) + DropConfig(rows[1..], id)
  }

  /** A write the guards accept never touches a system setting: an update or a delete
      leaves every system setting of the table in place and unchanged. */
  lemma WritesSpareSystemSettings(projects: map<Id, Project>, rows: seq<Config>, projectId: Id, configId: Id, userId: Id, dto: UpdateConfigDto, c: Config)
    requires UniqueIds(rows)
    requires TargetCheck(projects, rows, projectId, configId, userId).Ok?
    requires c in rows && c.isSystemSetting
    ensures c in ReplaceConfig(rows, configId, dto) && c in DropConfig(rows, configId)
  {
    var k :| 0 <= k < |rows| && rows[k] == c;
    var target := ConfigById(rows, configId).value;
    var j :| 0 <= j < |rows| && rows[j] == target;
    assert j != k;
    assert c.id != configId;
    assert ReplaceConfig(rows, configId, dto)[k] == c;
  }

  // ---------------------------------------------------------------------------------
  // Sprint 0

  /** The fourteen settings `initializeSprint0` creates, in order. */
  const Sprint0Defaults: seq<CreateConfigDto> := [
    CreateConfigDto("dod_code_review", "true", "boolean", "definition_of_done", Some("El código debe pasar revisión de pares"), None),
    CreateConfigDto("dod_unit_tests", "true", "boolean", "definition_of_done", Some("Debe tener pruebas unitarias"), None),
    CreateConfigDto("dod_integration_tests", "false", "boolean", "definition_of_done", Some("Debe tener pruebas de integración"), None),
    CreateConfigDto("dod_documentation", "true", "boolean", "definition_of_done", Some("Debe estar documentado"), None),
    CreateConfigDto("architecture_pattern", "Clean Architecture", "string", "development_patterns", Some("Patrón arquitectónico del proyecto"), None),
    CreateConfigDto("coding_standard", "ESLint + Prettier", "string", "development_patterns", Some("Estándar de código"), None),
    CreateConfigDto("git_workflow", "GitFlow", "string", "development_patterns", Some("Flujo de trabajo en Git"), None),
    CreateConfigDto("backend_framework", "NestJS", "string", "tech_infrastructure", Some("Framework del backend"), None),
    CreateConfigDto("frontend_framework", "Next.js", "string", "tech_infrastructure", Some("Framework del frontend"), None),
    CreateConfigDto("database", "PostgreSQL", "string", "tech_infrastructure", Some("Base de datos"), None),
    CreateConfigDto("orm", "Prisma", "string", "tech_infrastructure", Some("ORM utilizado"), None),
    CreateConfigDto("context_diagram", "", "text", "initial_models", Some("URL o descripción del diagrama de contexto"), None),
    CreateConfigDto("data_model", "", "text", "initial_models", Some("URL o descripción del modelo de datos"), None),
    CreateConfigDto("architecture_diagram", "", "text", "initial_models", Some("URL o descripción del diagrama de arquitectura"), None)
  ]

  /** Sprint 0 is fourteen settings, none flagged as a system setting, in four categories, in this order:
      four for the definition of done, three development patterns, four infrastructure
      choices and three initial models. */
  lemma Sprint0Shape()
    ensures |Sprint0Defaults| == 14
    ensures forall i :: 0 <= i < 4 ==> Sprint0Defaults[i].category == "definition_of_done"
    ensures forall i :: 4 <= i < 7 ==> Sprint0Defaults[i].category == "development_patterns"
    ensures forall i :: 7 <= i < 11 ==> Sprint0Defaults[i].category == "tech_infrastructure"
    ensures forall i :: 11 <= i < 14 ==> Sprint0Defaults[i].category == "initial_models"
    ensures forall i :: 0 <= i < 14 ==> Sprint0Defaults[i].isSystemSetting.None?
  {
  }

  /** The fourteen keys are distinct. */
  lemma Sprint0Keys()
    ensures forall i, j :: 0 <= i < j < |Sprint0Defaults| ==> Sprint0Defaults[i].key != Sprint0Defaults[j].key
  {
    assert forall i :: 0 <= i < |Sprint0Defaults| ==> Sprint0Defaults[i].key == Sprint0KeyNames[i];
    KeyNamesDistinct();
  }

  const Sprint0KeyNames: seq<string> := ["dod_code_review", "dod_unit_tests", "dod_integration_tests",
    "dod_documentation", "architecture_pattern", "coding_standard", "git_workflow", "backend_framework",
    "frontend_framework", "database", "orm", "context_diagram", "data_model", "architecture_diagram"]

  /** No two of the names share their length, first and last letter at once. */
  lemma KeyNamesDistinct()
    ensures forall i, j :: 0 <= i < j < |Sprint0KeyNames| ==> Sprint0KeyNames[i] != Sprint0KeyNames[j]
  {
    var keys := Sprint0KeyNames;
    var sigs := seq(|keys|, i requires 0 <= i < |keys| => (|keys[i]|, keys[i][0], keys[i][|keys[i]| - 1]));
    assert sigs == [(15, 'd', 'w'), (14, 'd', 's'), (21, 'd', 's'), (17, 'd', 'n'), (20, 'a', 'n'), (15, 'c', 'd'),
      (12, 'g', 'w'), (17, 'b', 'k'), (18, 'f', 'k'), (8, 'd', 'e'), (3, 'o', 'm'), (15, 'c', 'm'), (10, 'd', 'l'), (20, 'a', 'm')];
    forall i, j | 0 <= i < j < |keys| ensures keys[i] != keys[j] {
      assert sigs[i] != sigs[j];
    }
  }

  // ---------------------------------------------------------------------------------
  // The service

  class ProjectConfigService {
    const projects: map<Id, Project>
    var configs: seq<Config>

    predicate Valid()
      reads this
    {
      UniqueIds(configs)
    }

    constructor(projects0: map<Id, Project>, configs0: seq<Config>)
      requires UniqueIds(configs0)
      ensures Valid() && projects == projects0 && configs == configs0
    {
      projects := projects0;
      configs := configs0;
    }

    /** `getProjectConfigs`: the project's settings, grouped by category. Every setting is in
        exactly its category's bucket, and the categories are the bucket keys, each once. */
    method GetProjectConfigs(projectId: Id, userId: Id) returns (r: Result<Listing, Failure>)
      ensures r.Err? <==> VerifyAccess(projects, projectId, userId).Err?
      ensures r.Err? ==> r.error == VerifyAccess(projects, projectId, userId).error
      ensures r.Ok? ==> r.value.all == OfProject(configs, projectId)
      ensures r.Ok? ==> forall c :: c in r.value.categories <==> c in r.value.byCategory
      ensures r.Ok? ==> Collections.NoDuplicates(r.value.categories)
      ensures r.Ok? ==> forall c :: c in r.value.byCategory ==>
        r.value.byCategory[c] == Collections.Keyed(r.value.all, CategoryKey, c) && r.value.byCategory[c] != []
      ensures r.Ok? ==> forall k :: 0 <= k < |r.value.all| ==> r.value.all[k].category in r.value.byCategory
    {
      var access := VerifyAccess(projects, projectId, userId);
      if access.Err? {
        return Err(access.error);
      }
      var all := OfProject(configs, projectId);
      var grouped := Collections.GroupBy(all, CategoryKey);
      Collections.GroupByExact(all, CategoryKey);
      r := Ok(Listing(all, grouped.byKey, grouped.keys));
    }

    /** `getConfigsByCategory`. */
    method GetConfigsByCategory(projectId: Id, category: string, userId: Id) returns (r: Result<seq<Config>, Failure>)
      ensures r.Err? <==> VerifyAccess(projects, projectId, userId).Err?
      ensures r.Ok? ==> r.value == InCategory(configs, projectId, category)
      ensures r.Ok? ==> forall c :: c in r.value <==> c in configs && c.projectId == projectId && c.category == category
    {
      var access := VerifyAccess(projects, projectId, userId);
      if access.Err? {
        return Err(access.error);
      }
      r := Ok(InCategory(configs, projectId, category));
    }

    /** `createConfig`: refused when the project already has the (key, category) pair. */
    method CreateConfig(projectId: Id, dto: CreateConfigDto, userId: Id, id: Id) returns (r: Result<Config, Failure>)
      requires Valid() && !IdUsed(configs, id)
      modifies this
      ensures Valid()
      ensures r.Ok? <==> MayWrite(projects, projectId, userId) && !KeyTaken(old(configs), projectId, dto.key, dto.category)
      ensures !MayWrite(projects, projectId, userId) ==> r.Err? && r.error.Forbidden?
      ensures MayWrite(projects, projectId, userId) && KeyTaken(old(configs), projectId, dto.key, dto.category) ==> r.Err? && r.error.BadRequest?
      ensures r.Err? ==> unchanged(this)
      ensures r.Ok? ==> r.value == NewConfig(id, projectId, dto) && configs == old(configs) + [r.value]
    {
      var check := WriteCheck(projects, projectId, userId);
      if check.Some? {
        return Err(check.value);
      }
      if KeyTaken(configs, projectId, dto.key, dto.category) {
        return Err(BadRequest("the key already exists in that category"));
      }
      var row := NewConfig(id, projectId, dto);
      configs := configs + [row];
      r := Ok(row);
    }

    /** `batchCreateConfigs`: every item is created, with no duplicate check. */
    method BatchCreateConfigs(projectId: Id, dtos: seq<CreateConfigDto>, userId: Id, ids: seq<Id>) returns (r: Result<seq<Config>, Failure>)
      requires Valid() && FreshIds(configs, ids) && |ids| >= |dtos|
      modifies this
      ensures Valid()
      ensures r.Ok? <==> MayWrite(projects, projectId, userId)
      ensures r.Err? ==> r.error.Forbidden? && unchanged(this)
      ensures r.Ok? ==> r.value == NewConfigs(projectId, dtos, ids) && configs == old(configs) + r.value
    {
      var check := WriteCheck(projects, projectId, userId);
      if check.Some? {
        return Err(check.value);
      }
      var created := NewConfigs(projectId, dtos, ids);
      AppendFreshKeeps(configs, created, ids);
      configs := configs + created;
      r := Ok(created);
    }

    /** `updateConfig`. */
    method UpdateConfig(projectId: Id, configId: Id, dto: UpdateConfigDto, userId: Id) returns (r: Result<Config, Failure>)
      requires Valid()
      modifies this
      ensures Valid()
      ensures r.Ok? <==> TargetCheck(projects, old(configs), projectId, configId, userId).Ok?
      ensures r.Err? ==> r.error == TargetCheck(projects, old(configs), projectId, configId, userId).error && unchanged(this)
      ensures r.Ok? ==> r.value == Edited(TargetCheck(projects, old(configs), projectId, configId, userId).value, dto)
      ensures r.Ok? ==> configs == ReplaceConfig(old(configs), configId, dto)
    {
      var check := TargetCheck(projects, configs, projectId, configId, userId);
      if check.Err? {
        return Err(check.error);
      }
      var rows := ReplaceConfig(configs, configId, dto);
      assert forall k :: 0 <= k < |configs| ==> rows[k].id == configs[k].id;
      configs := rows;
      r := Ok(Edited(check.value, dto));
    }

    /** `deleteConfig`. */
    method DeleteConfig(projectId: Id, configId: Id, userId: Id) returns (r: Result<(), Failure>)
      requires Valid()
      modifies this
      ensures Valid()
      ensures r.Ok? <==> TargetCheck(projects, old(configs), projectId, configId, userId).Ok?
      ensures r.Err? ==> r.error == TargetCheck(projects, old(configs), projectId, configId, userId).error && unchanged(this)
      ensures r.Ok? ==> configs == DropConfig(old(configs), configId) && !IdUsed(configs, configId)
    {
      var check := TargetCheck(projects, configs, projectId, configId, userId);
      if check.Err? {
        return Err(check.error);
      }
      DropKeeps(configs, configId);
      configs := DropConfig(configs, configId);
      r := Ok(());
    }

    /** `initializeSprint0`: only for a project without settings; creates the fourteen
        defaults and reports their number. */
    method InitializeSprint0(projectId: Id, userId: Id, ids: seq<Id>) returns (r: Result<Initialized, Failure>)
      requires Valid() && FreshIds(configs, ids) && |ids| >= |Sprint0Defaults|
      modifies this
      ensures Valid()
      ensures r.Ok? <==> MayWrite(projects, projectId, userId) && OfProject(old(configs), projectId) == []
      ensures !MayWrite(projects, projectId, userId) ==> r.Err? && r.error.Forbidden?
      ensures MayWrite(projects, projectId, userId) && OfProject(old(configs), projectId) != [] ==> r.Err? && r.error.BadRequest?
      ensures r.Err? ==> unchanged(this)
      ensures r.Ok? ==> r.value.count == 14 && r.value.configs == NewConfigs(projectId, Sprint0Defaults, ids)
      ensures r.Ok? ==> configs == old(configs) + r.value.configs
    {
      var check := WriteCheck(projects, projectId, userId);
      if check.Some? {
        return Err(check.value);
      }
      if OfProject(configs, projectId) != [] {
        return Err(BadRequest("the project already has settings"));
      }
      Sprint0Shape();
      var created := NewConfigs(projectId, Sprint0Defaults, ids);
      AppendFreshKeeps(configs, created, ids);
      configs := configs + created;
      r := Ok(Initialized(|created|, created));
    }
  }

  lemma AppendFreshKeeps(rows: seq<Config>, added: seq<Config>, ids: seq<Id>)
    requires UniqueIds(rows) && FreshIds(rows, ids) && |added| <= |ids|
    requires forall k :: 0 <= k < |added| ==> added[k].id == ids[k]
    ensures UniqueIds(rows + added)
  {
    var all := rows + added;
    forall i, j | 0 <= i < j < |all| ensures all[i].id != all[j].id {
      if j >= |rows| {
        if i >= |rows| {
          assert all[i].id == ids[i - |rows|] && all[j].id == ids[j - |rows|];
        } else {
          assert all[j].id == ids[j - |rows|];
          assert !IdUsed(rows, ids[j - |rows|]);
        }
      }
    }
  }

  lemma {:induction false} DropKeeps(rows: seq<Config>, id: Id)
    requires UniqueIds(rows)
    ensures UniqueIds(DropConfig(rows, id))
  {
    if rows != [] {
      DropKeeps(rows[1..], id);
      var rest := DropConfig(rows[1..], id);
      forall x | x in rest ensures x.id != rows[0].id {
        var j :| 0 <= j < |rows[1..]| && rows[1..][j] == x;
        assert rows[j + 1] == x;
      }
    }
  }
}
