/**
 Building one role from its settings and its parent.

 Settings arrive as TOML values of any type, so each one is checked on the way.
 */
module RoleBuild {
  import opened Wrappers

  /** A TOML value; `shown` is its `str()`, which only a text setting asks for. */
  datatype Value =
    | Str(text: string)
    | Bool(on: bool)
    | List(items: seq<Value>, shown: string)
    | Table(entries: map<string, Value>, shown: string)
    | Other(shown: string)

  type Raw = map<string, Value>

  datatype Role = Role(
    name: string,
    description: string,
    tools: seq<string>,
    databases: seq<string>,
    allowContainers: seq<string>,
    denyContainers: seq<string>,
    allowRawSample: bool,
    annotateAsHuman: bool,
    lifetime: Option<string>)

  datatype RoleError =
    | NoRoles
    | NotTable(role: string)
    | UnknownSettings(role: string, names: set<string>)
    | BadExtends(role: string)
    | Circle(trail: seq<string>)
    | UnknownParent(role: string, parent: string)
    | BothToolForms(role: string)
    | NotStrings(role: string, key: string)
    | NotFlag(role: string, key: string)
    | DropsUnheard(role: string, names: set<string>)
    | UnknownTools(role: string, names: set<string>)
    | NoTools(role: string)
    | BadContainers(role: string)
    | UnknownContainerKeys(role: string, names: set<string>)

  const TOOL_NAMES := {
    "list_databases", "list_containers", "get_schema", "get_sample", "profile_column",
    "inventory_start", "inventory_status", "inventory_cancel", "inventory_summary", "inventory_containers",
    "inventory_columns", "inventory_relationships", "inventory_changes", "inventory_search", "inventory_annotate",
    "inventory_export"
  }

  const CONTAINER_KEYS := {"allow", "deny"}

  /** A role nobody has said anything about. */
  function Blank(name: string): Role {
    Role(name, "", [], [], [], [], false, false, None)
  }

  function Shown(v: Value): string {
    match v
    case Str(text) => text
    case Bool(on) => if on then "True" else "False"
    case List(_, shown) => shown
    case Table(_, shown) => shown
    case Other(shown) => shown
  }

  predicate IsStrings(v: Value) {
    v.List? && forall i :: 0 <= i < |v.items| ==> v.items[i].Str?
  }

  function Texts(v: Value): seq<string>
    requires IsStrings(v)
  {
    seq(|v.items|, i requires 0 <= i < |v.items| => v.items[i].text)
  }

  function Strings(role: string, key: string, v: Value): Result<seq<string>, RoleError> {
    if IsStrings(v) then Ok(Texts(v)) else Err(NotStrings(role, key))
  }

  function StringsAt(role: string, title: string, raw: Raw, key: string, inherited: seq<string>): Result<seq<string>, RoleError> {
    if key in raw then Strings(role, title, raw[key]) else Ok(inherited)
  }

  function Flag(role: string, key: string, raw: Raw, inherited: bool): Result<bool, RoleError> {
    if key !in raw then Ok(inherited)
    else if raw[key].Bool? then Ok(raw[key].on)
    else Err(NotFlag(role, key))
  }

  /** The extras not there yet, appended in order. */
  function AddMissing(tools: seq<string>, extras: seq<string>): seq<string>
    decreases |extras|
  {
    if extras == [] then tools
    else AddMissing(if extras[0] in tools then tools else tools + [extras[0]], extras[1..])
  }

  function Dropping(tools: seq<string>, dropped: set<string>): seq<string> {
    if tools == [] then []
    else (if tools[0] in dropped then [] else [tools[0]]) + Dropping(tools[1..], dropped)
  }

  function AsSet(names: seq<string>): set<string> {
    set name | name in names
  }

  /** The tool list as edited, before it is checked against the served tools. */
  function EditedTools(name: string, raw: Raw, base: Role): Result<seq<string>, RoleError> {
    if "tools" in raw && ("add_tools" in raw || "drop_tools" in raw) then Err(BothToolForms(name))
    else if "tools" in raw then Strings(name, "tools", raw["tools"])
    else
      var extras :- StringsAt(name, "add_tools", raw, "add_tools", []);
      var tools := AddMissing(base.tools, extras);
      var drops :- StringsAt(name, "drop_tools", raw, "drop_tools", []);
      var unheard := AsSet(drops) - AsSet(tools);
      if unheard != {} then Err(DropsUnheard(name, unheard)) else Ok(Dropping(tools, AsSet(drops)))
  }

  function CheckedTools(name: string, tools: seq<string>): Result<seq<string>, RoleError> {
    var unknown := AsSet(tools) - TOOL_NAMES;
    if unknown != {} then Err(UnknownTools(name, unknown))
    else if tools == [] then Err(NoTools(name))
    else Ok(tools)
  }

  function Containers(name: string, raw: Raw): Result<Raw, RoleError> {
    if "containers" !in raw then Ok(map[])
    else if !raw["containers"].Table? then Err(BadContainers(name))
    else
      var unknown := raw["containers"].entries.Keys - CONTAINER_KEYS;
      if unknown != {} then Err(UnknownContainerKeys(name, unknown)) else Ok(raw["containers"].entries)
  }

  /** One role, from its own settings over its parent's. */
  function Built(name: string, raw: Raw, parent: Option<Role>): Result<Role, RoleError> {
    var base := if parent.Some? then parent.value else Blank(name);
    var edited :- EditedTools(name, raw, base);
    var tools :- CheckedTools(name, edited);
    var containers :- Containers(name, raw);
    var databases :- StringsAt(name, "databases", raw, "databases", base.databases);
    var allow :- StringsAt(name, "containers.allow", containers, "allow", base.allowContainers);
    var deny :- StringsAt(name, "containers.deny", containers, "deny", base.denyContainers);
    var rawSample :- Flag(name, "allow_raw_sample", raw, base.allowRawSample);
    var asHuman :- Flag(name, "annotate_as_human", raw, base.annotateAsHuman);
    Ok(Role(name,
            if "description" in raw then Shown(raw["description"]) else base.description,
            tools, databases, allow, deny, rawSample, asHuman,
            if "lifetime" in raw then Some(Shown(raw["lifetime"])) else base.lifetime))
  }

  /** The tool list, edited in place on a local copy. */
  method BuildTools(name: string, raw: Raw, base: Role) returns (r: Result<seq<string>, RoleError>)
    ensures r == EditedTools(name, raw, base)
  {
    if "tools" in raw && ("add_tools" in raw || "drop_tools" in raw) {
      return Err(BothToolForms(name));
    }
    if "tools" in raw {
      return Strings(name, "tools", raw["tools"]);
    }
    var tools := base.tools;
    var extras :- StringsAt(name, "add_tools", raw, "add_tools", []);
    for i := 0 to |extras|
      invariant AddMissing(tools, extras[i..]) == AddMissing(base.tools, extras)
    {
      assert extras[i..][1..] == extras[i + 1..];
      if extras[i] !in tools {
        tools := tools + [extras[i]];
      }
    }
    var drops :- StringsAt(name, "drop_tools", raw, "drop_tools", []);
    var dropped := AsSet(drops);
    var unheard := dropped - AsSet(tools);
    if unheard != {} {
      return Err(DropsUnheard(name, unheard));
    }
    r := Ok(Dropping(tools, dropped));
  }

  // ---- the tool list ----

  lemma {:induction false} AddMissingKeeps(tools: seq<string>, extras: seq<string>)
    ensures tools <= AddMissing(tools, extras)
    ensures forall t :: t in AddMissing(tools, extras) <==> t in tools || t in extras
    decreases |extras|
  {
    if extras != [] {
      var more := if extras[0] in tools then tools else tools + [extras[0]];
      AddMissingKeeps(more, extras[1..]);
      assert extras == [extras[0]] + extras[1..];
    }
  }

  lemma {:induction false} DroppingKeeps(tools: seq<string>, dropped: set<string>)
    ensures forall t :: t in Dropping(tools, dropped) <==> t in tools && t !in dropped
    ensures dropped == {} ==> Dropping(tools, dropped) == tools
  {
    if tools != [] {
      DroppingKeeps(tools[1..], dropped);
      assert tools == [tools[0]] + tools[1..];
    }
  }

  /** A role that is built grants at least one tool, and only tools the server has. */
  lemma BuiltToolsAreServed(name: string, raw: Raw, parent: Option<Role>)
    ensures Built(name, raw, parent).Ok? ==>
      var tools := Built(name, raw, parent).value.tools;
      tools != [] && forall t :: t in tools ==> t in TOOL_NAMES
  {
    var base := if parent.Some? then parent.value else Blank(name);
    var edited := EditedTools(name, raw, base);
    hide EditedTools;
    if edited.Ok? {
      forall t | t in edited.value && CheckedTools(name, edited.value).Ok? ensures t in TOOL_NAMES {
        assert t in AsSet(edited.value);
      }
    }
  }

  /** `tools` replaces; otherwise the role has what it inherits or adds, less what it drops. */
  lemma BuiltToolsAsSet(name: string, raw: Raw, parent: Option<Role>)
    requires Built(name, raw, parent).Ok?
    ensures
      var tools := Built(name, raw, parent).value.tools;
      var inherited := if parent.Some? then parent.value.tools else [];
      if "tools" in raw then IsStrings(raw["tools"]) && tools == Texts(raw["tools"])
      else
        && ("add_tools" in raw ==> IsStrings(raw["add_tools"])) && ("drop_tools" in raw ==> IsStrings(raw["drop_tools"]))
        && forall t :: t in tools <==>
             && (t in inherited || ("add_tools" in raw && t in Texts(raw["add_tools"])))
             && !("drop_tools" in raw && t in Texts(raw["drop_tools"]))
  {
    hide AddMissing, Dropping, Containers, Flag;
    if "tools" !in raw {
      var base := if parent.Some? then parent.value else Blank(name);
      var extras := StringsAt(name, "add_tools", raw, "add_tools", []).value;
      var drops := StringsAt(name, "drop_tools", raw, "drop_tools", []).value;
      AddMissingKeeps(base.tools, extras);
      DroppingKeeps(AddMissing(base.tools, extras), AsSet(drops));
    }
  }

  /** A role that only adds tools has its parent's list as the front of its own. */
  lemma AddingKeepsFront(name: string, raw: Raw, parent: Role)
    requires Built(name, raw, Some(parent)).Ok? && "tools" !in raw && "drop_tools" !in raw
    ensures parent.tools <= Built(name, raw, Some(parent)).value.tools
  {
    var extras := StringsAt(name, "add_tools", raw, "add_tools", []).value;
    AddMissingKeeps(parent.tools, extras);
    assert AsSet([]) == {};
    DroppingKeeps(AddMissing(parent.tools, extras), {});
    hide AddMissing, Dropping, Containers, Flag;
  }

  // ---- when a role builds at all ----

  predicate StringsOrAbsent(raw: Raw, key: string) { key in raw ==> IsStrings(raw[key]) }

  predicate FlagOrAbsent(raw: Raw, key: string) { key in raw ==> raw[key].Bool? }

  function NamesAt(raw: Raw, key: string): set<string> {
    if key in raw && IsStrings(raw[key]) then AsSet(Texts(raw[key])) else {}
  }

  /** The tools granted, as a set. */
  function Granted(raw: Raw, inherited: set<string>): set<string> {
    if "tools" in raw then NamesAt(raw, "tools")
    else inherited + NamesAt(raw, "add_tools") - NamesAt(raw, "drop_tools")
  }

  predicate SensibleTools(raw: Raw, inherited: set<string>) {
    && !("tools" in raw && ("add_tools" in raw || "drop_tools" in raw))
    && StringsOrAbsent(raw, "tools") && StringsOrAbsent(raw, "add_tools") && StringsOrAbsent(raw, "drop_tools")
    && NamesAt(raw, "drop_tools") <= inherited + NamesAt(raw, "add_tools")
    && Granted(raw, inherited) != {} && Granted(raw, inherited) <= TOOL_NAMES
  }

  predicate SensibleContainers(raw: Raw) {
    "containers" in raw ==>
      && raw["containers"].Table? && raw["containers"].entries.Keys <= CONTAINER_KEYS
      && StringsOrAbsent(raw["containers"].entries, "allow") && StringsOrAbsent(raw["containers"].entries, "deny")
  }

  function Inherited(parent: Option<Role>): set<string> {
    if parent.Some? then AsSet(parent.value.tools) else {}
  }

  /** Everything a section has to be for its role to build. */
  predicate Sensible(raw: Raw, inherited: set<string>) {
    && SensibleTools(raw, inherited) && SensibleContainers(raw) && StringsOrAbsent(raw, "databases")
    && FlagOrAbsent(raw, "allow_raw_sample") && FlagOrAbsent(raw, "annotate_as_human")
  }

  lemma NothingLeft(a: set<string>, b: set<string>)
    ensures a - b == {} <==> a <= b
  {
    forall x | x in a && a - b == {} ensures x in b {
      assert x !in a - b;
    }
  }

  lemma EditedToolsIff(name: string, raw: Raw, base: Role)
    ensures
      var edited := EditedTools(name, raw, base);
      var inherited := AsSet(base.tools);
      && (edited.Ok? <==>
            && !("tools" in raw && ("add_tools" in raw || "drop_tools" in raw))
            && StringsOrAbsent(raw, "tools") && StringsOrAbsent(raw, "add_tools") && StringsOrAbsent(raw, "drop_tools")
            && NamesAt(raw, "drop_tools") <= inherited + NamesAt(raw, "add_tools"))
      && (edited.Ok? ==> AsSet(edited.value) == Granted(raw, inherited))
  {
    hide AddMissing, Dropping, Texts;
    if "tools" !in raw && StringsOrAbsent(raw, "add_tools") && StringsOrAbsent(raw, "drop_tools") {
      var extras := StringsAt(name, "add_tools", raw, "add_tools", []).value;
      var drops := StringsAt(name, "drop_tools", raw, "drop_tools", []).value;
      var added := AddMissing(base.tools, extras);
      AddMissingKeeps(base.tools, extras);
      DroppingKeeps(added, AsSet(drops));
      assert AsSet([]) == {};
      assert AsSet(extras) == NamesAt(raw, "add_tools") && AsSet(drops) == NamesAt(raw, "drop_tools");
      assert AsSet(added) == AsSet(base.tools) + AsSet(extras);
      assert AsSet(Dropping(added, AsSet(drops))) == AsSet(added) - AsSet(drops);
      NothingLeft(AsSet(drops), AsSet(added));
    }
  }

  lemma CheckedToolsIff(name: string, raw: Raw, base: Role)
    ensures
      var edited := EditedTools(name, raw, base);
      edited.Ok? && CheckedTools(name, edited.value).Ok? <==> SensibleTools(raw, AsSet(base.tools))
  {
    var edited := EditedTools(name, raw, base);
    EditedToolsIff(name, raw, base);
    hide EditedTools, Granted, NamesAt, StringsOrAbsent;
    if edited.Ok? {
      NothingLeft(AsSet(edited.value), TOOL_NAMES);
      if edited.value != [] {
        assert edited.value[0] in AsSet(edited.value);
      } else {
        assert AsSet(edited.value) == {};
      }
    }
  }

  /** A role builds exactly when its tool edit makes sense, its tools are served and not none, and every setting has its type. */
  lemma BuiltIff(name: string, raw: Raw, parent: Option<Role>)
    ensures Built(name, raw, parent).Ok? <==> Sensible(raw, Inherited(parent))
  {
    hide EditedTools, CheckedTools, SensibleTools, Texts;
    assert AsSet([]) == {};
    CheckedToolsIff(name, raw, if parent.Some? then parent.value else Blank(name));
    ContainersIff(name, raw);
    hide Containers;
  }

  lemma ContainersIff(name: string, raw: Raw)
    ensures SensibleContainers(raw) <==>
      && Containers(name, raw).Ok?
      && StringsOrAbsent(Containers(name, raw).value, "allow") && StringsOrAbsent(Containers(name, raw).value, "deny")
  {
    if "containers" in raw && raw["containers"].Table? {
      NothingLeft(raw["containers"].entries.Keys, CONTAINER_KEYS);
    }
  }

  // ---- the inherited settings ----

  datatype Setting = Description | Databases | Allow | Deny | RawSample | AsHuman | Lifetime

  datatype Settled = Text(text: string) | Names(names: seq<string>) | Switch(on: bool) | Period(length: Option<string>)

  function Get(role: Role, setting: Setting): Settled {
    match setting
    case Description => Text(role.description)
    case Databases => Names(role.databases)
    case Allow => Names(role.allowContainers)
    case Deny => Names(role.denyContainers)
    case RawSample => Switch(role.allowRawSample)
    case AsHuman => Switch(role.annotateAsHuman)
    case Lifetime => Period(role.lifetime)
  }

  function Default(setting: Setting): Settled {
    Get(Blank(""), setting)
  }

  /** The value of one key, where the role's own section gives it. */
  function Own(raw: Raw, setting: Setting): Option<Settled> {
    match setting
    case Description => if "description" in raw then Some(Text(Shown(raw["description"]))) else None
    case Databases => OwnNames(raw, "databases")
    case Allow => OwnNames(OwnContainers(raw), "allow")
    case Deny => OwnNames(OwnContainers(raw), "deny")
    case RawSample => OwnSwitch(raw, "allow_raw_sample")
    case AsHuman => OwnSwitch(raw, "annotate_as_human")
    case Lifetime => if "lifetime" in raw then Some(Period(Some(Shown(raw["lifetime"])))) else None
  }

  function OwnNames(raw: Raw, key: string): Option<Settled> {
    if key in raw && IsStrings(raw[key]) then Some(Names(Texts(raw[key]))) else None
  }

  function OwnContainers(raw: Raw): Raw {
    if "containers" in raw && raw["containers"].Table? then raw["containers"].entries else map[]
  }

  function OwnSwitch(raw: Raw, key: string): Option<Settled> {
    if key in raw && raw[key].Bool? then Some(Switch(raw[key].on)) else None
  }

  /** What a setting of a role is: its own value, else its parent's, else the default. */
  function Settles(raw: Raw, parent: Option<Role>, setting: Setting): Settled {
    if Own(raw, setting).Some? then Own(raw, setting).value
    else if parent.Some? then Get(parent.value, setting) else Default(setting)
  }

  /** Each setting of a built role is its own value, else its parent's, else the default. */
  lemma BuiltSetting(name: string, raw: Raw, parent: Option<Role>, setting: Setting)
    requires Built(name, raw, parent).Ok?
    ensures
      var role := Built(name, raw, parent).value;
      && role.name == name
      && Get(role, setting) == Settles(raw, parent, setting)
  {
    hide EditedTools, CheckedTools;
  }

  lemma BuiltTools(name: string, raw: Raw, parent: Option<Role>)
    requires Built(name, raw, parent).Ok?
    ensures AsSet(Built(name, raw, parent).value.tools) == Granted(raw, Inherited(parent))
  {
    hide EditedTools, Granted;
    assert AsSet([]) == {};
    EditedToolsIff(name, raw, if parent.Some? then parent.value else Blank(name));
  }

  /** The builder: which sections give a role, and what role; `Built` fixes the order of its refusals. */
  method Build(name: string, raw: Raw, parent: Option<Role>) returns (r: Result<Role, RoleError>)
    ensures r.Ok? <==> Sensible(raw, Inherited(parent))
    ensures r.Ok? ==> r.value.name == name && AsSet(r.value.tools) == Granted(raw, Inherited(parent))
    ensures r.Ok? ==> forall setting :: Get(r.value, setting) == Settles(raw, parent, setting)
    ensures r == Built(name, raw, parent)
  {
    hide Sensible, Granted, Inherited, Get, Settles;
    BuiltIff(name, raw, parent);
    if Built(name, raw, parent).Ok? {
      BuiltTools(name, raw, parent);
      BuiltSettings(name, raw, parent);
    }
    var base := if parent.Some? then parent.value else Blank(name);
    var edited :- BuildTools(name, raw, base);
    var tools :- CheckedTools(name, edited);
    var containers :- Containers(name, raw);
    var databases :- StringsAt(name, "databases", raw, "databases", base.databases);
    var allow :- StringsAt(name, "containers.allow", containers, "allow", base.allowContainers);
    var deny :- StringsAt(name, "containers.deny", containers, "deny", base.denyContainers);
    var rawSample :- Flag(name, "allow_raw_sample", raw, base.allowRawSample);
    var asHuman :- Flag(name, "annotate_as_human", raw, base.annotateAsHuman);
    r := Ok(Role(name,
                 if "description" in raw then Shown(raw["description"]) else base.description,
                 tools, databases, allow, deny, rawSample, asHuman,
                 if "lifetime" in raw then Some(Shown(raw["lifetime"])) else base.lifetime));
  }

  lemma BuiltSettings(name: string, raw: Raw, parent: Option<Role>)
    requires Built(name, raw, parent).Ok?
    ensures Built(name, raw, parent).value.name == name
    ensures forall setting :: Get(Built(name, raw, parent).value, setting) == Settles(raw, parent, setting)
  {
    hide Built, Get, Own, Default;
    forall setting ensures Get(Built(name, raw, parent).value, setting) == Settles(raw, parent, setting) {
      BuiltSetting(name, raw, parent, setting);
    }
    BuiltSetting(name, raw, parent, Description);
  }
}
