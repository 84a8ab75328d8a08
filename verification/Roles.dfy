/**
 Loading a roles file: inheritance resolved once per role, circles reported.

 The reference is the recursion without the memo and without the trail, which is
 defined only where the chain of parents is finite and known.
 */
module Roles {
  import opened Wrappers
  import opened RoleBuild

  /** A role as written; `above` is its `extends`, absent or a name. */
  datatype Draft = Draft(raw: Raw, above: Option<string>)

  type Drafts = map<string, Draft>

  const KNOWN_KEYS := {
    "description", "extends", "tools", "add_tools", "drop_tools", "databases", "containers",
    "allow_raw_sample", "annotate_as_human", "lifetime"
  }

  /** An empty `extends` is no parent. */
  function ParentOf(draft: Draft): Option<string> {
    if draft.above == Some("") then None else draft.above
  }

  /** One section of the file, checked before anything is resolved. */
  function Drafted(name: string, body: Value): Result<Draft, RoleError> {
    if !body.Table? then Err(NotTable(name))
    else
      var unknown := body.entries.Keys - KNOWN_KEYS;
      if unknown != {} then Err(UnknownSettings(name, unknown))
      else if "extends" !in body.entries then Ok(Draft(body.entries, None))
      else if !body.entries["extends"].Str? then Err(BadExtends(name))
      else Ok(Draft(body.entries, Some(body.entries["extends"].text)))
  }

  // ---- the reference ----

  /** The chain of parents from here ends, after n steps, at a role with no parent. */
  predicate Reaches(drafts: Drafts, name: string, n: nat)
    decreases n
  {
    name in drafts &&
    match ParentOf(drafts[name])
    case None => n == 0
    case Some(parent) => n > 0 && Reaches(drafts, parent, n - 1)
  }

  /** What a role means: its own settings over what its parent means. */
  function Meaning(drafts: Drafts, name: string, n: nat): Result<Role, RoleError>
    requires Reaches(drafts, name, n)
    decreases n
  {
    if n == 0 then Built(name, drafts[name].raw, None)
    else
      var parent :- Meaning(drafts, ParentOf(drafts[name]).value, n - 1);
      Built(name, drafts[name].raw, Some(parent))
  }

  ghost predicate HasMeaning(drafts: Drafts, name: string, role: Role) {
    exists n: nat :: Reaches(drafts, name, n) && Meaning(drafts, name, n) == Ok(role)
  }

  // ---- the recursion with a trail ----

  function Resolved(drafts: Drafts, name: string, trail: seq<string>): Result<Role, RoleError>
    requires name in drafts
    decreases |drafts.Keys - AsSet(trail)|
  {
    if name in trail then Err(Circle(trail + [name]))
    else
      match ParentOf(drafts[name])
      case None => Built(name, drafts[name].raw, None)
      case Some(parent) =>
        if parent !in drafts then Err(UnknownParent(name, parent))
        else
          TrailGrows(drafts, name, trail);
          var above :- Resolved(drafts, parent, trail + [name]);
          Built(name, drafts[name].raw, Some(above))
  }

  /** Each step of the trail uses up one role, so the recursion ends. */
  lemma TrailGrows(drafts: Drafts, name: string, trail: seq<string>)
    requires name in drafts && name !in trail
    ensures |drafts.Keys - AsSet(trail + [name])| < |drafts.Keys - AsSet(trail)|
  {
    assert drafts.Keys - AsSet(trail + [name]) == (drafts.Keys - AsSet(trail)) - {name};
    assert name in drafts.Keys - AsSet(trail);
  }

  predicate Extends(drafts: Drafts, child: string, parent: string) {
    child in drafts && ParentOf(drafts[child]) == Some(parent)
  }

  /** The trail is the chain of children that led to `name`. */
  predicate IsPath(drafts: Drafts, trail: seq<string>, name: string) {
    trail == [] ||
    (var last := |trail| - 1; Extends(drafts, trail[last], name) && IsPath(drafts, trail[..last], trail[last]))
  }

  lemma PathGrows(drafts: Drafts, trail: seq<string>, name: string, parent: string)
    requires IsPath(drafts, trail, name) && Extends(drafts, name, parent)
    ensures IsPath(drafts, trail + [name], parent)
  {
    assert (trail + [name])[..|trail|] == trail;
  }

  class RoleLoader {
    const drafts: Drafts
    var resolved: map<string, Role>

    /** Each draft's `resolved` field holds nothing, or what the recursion gives without it. */
    ghost predicate Valid()
      reads this
    {
      forall name :: name in resolved ==> name in drafts && Resolved(drafts, name, []) == Ok(resolved[name])
    }

    constructor (drafts: Drafts)
      ensures this.drafts == drafts && resolved == map[] && Valid()
    {
      this.drafts := drafts;
      resolved := map[];
    }

    method Resolve(name: string, trail: seq<string>) returns (r: Result<Role, RoleError>)
      requires Valid() && name in drafts && IsPath(drafts, trail, name)
      modifies this
      ensures Valid() && old(resolved).Keys <= resolved.Keys
      ensures r == Resolved(drafts, name, trail)
      ensures r.Ok? ==> name in resolved
      decreases |drafts.Keys - AsSet(trail)|
    {
      hide Built, IsPath;
      if name in resolved {
        ResolvedAnywhere(drafts, name, [], trail);
        return Ok(resolved[name]);
      }
      if name in trail {
        return Err(Circle(trail + [name]));
      }
      var above: Option<Role> := None;
      if ParentOf(drafts[name]).Some? {
        var parent := ParentOf(drafts[name]).value;
        if parent !in drafts {
          return Err(UnknownParent(name, parent));
        }
        TrailGrows(drafts, name, trail);
        PathGrows(drafts, trail, name, parent);
        var role :- Resolve(parent, trail + [name]);
        above := Some(role);
      }
      var built :- Build(name, drafts[name].raw, above);
      ResolvedAnywhere(drafts, name, trail, []);
      resolved := resolved[name := built];
      r := Ok(built);
    }
  }

  // ---- the two recursions agree ----

  lemma {:induction false} ReachesOnce(drafts: Drafts, name: string, n: nat, m: nat)
    requires Reaches(drafts, name, n) && Reaches(drafts, name, m)
    ensures n == m
    decreases n
  {
    if n > 0 && m > 0 { ReachesOnce(drafts, ParentOf(drafts[name]).value, n - 1, m - 1); }
  }

  lemma {:induction false} PathReaches(drafts: Drafts, trail: seq<string>, name: string, n: nat, k: nat)
    requires IsPath(drafts, trail, name) && Reaches(drafts, name, n) && k < |trail|
    ensures Reaches(drafts, trail[k], n + |trail| - k)
    decreases |trail|
  {
    var last := |trail| - 1;
    assert Extends(drafts, trail[last], name) && Reaches(drafts, trail[last], n + 1);
    if k < last { PathReaches(drafts, trail[..last], trail[last], n + 1, k); }
  }

  /** A finite chain is never on its own trail, so the trail makes no difference. */
  lemma {:induction false} ReachesResolves(drafts: Drafts, name: string, n: nat, trail: seq<string>)
    requires Reaches(drafts, name, n) && IsPath(drafts, trail, name)
    ensures Resolved(drafts, name, trail) == Meaning(drafts, name, n)
    decreases n
  {
    if name in trail {
      var k :| 0 <= k < |trail| && trail[k] == name;
      PathReaches(drafts, trail, name, n, k);
      ReachesOnce(drafts, name, n, n + |trail| - k);
    } else if n > 0 {
      var parent := ParentOf(drafts[name]).value;
      PathGrows(drafts, trail, name, parent);
      ReachesResolves(drafts, parent, n - 1, trail + [name]);
    }
  }

  lemma {:induction false} ResolvedReaches(drafts: Drafts, name: string, trail: seq<string>) returns (n: nat)
    requires name in drafts && Resolved(drafts, name, trail).Ok?
    ensures Reaches(drafts, name, n)
    decreases |drafts.Keys - AsSet(trail)|
  {
    match ParentOf(drafts[name])
    case None => n := 0;
    case Some(parent) =>
      TrailGrows(drafts, name, trail);
      var m := ResolvedReaches(drafts, parent, trail + [name]);
      n := m + 1;
  }

  /** A success on one trail is a success on every trail, which is why it may be remembered. */
  lemma ResolvedAnywhere(drafts: Drafts, name: string, a: seq<string>, b: seq<string>)
    requires name in drafts && IsPath(drafts, a, name) && IsPath(drafts, b, name)
    requires Resolved(drafts, name, a).Ok?
    ensures Resolved(drafts, name, b) == Resolved(drafts, name, a)
  {
    var n := ResolvedReaches(drafts, name, a);
    ReachesResolves(drafts, name, n, a);
    ReachesResolves(drafts, name, n, b);
  }

  /**
   Resolving succeeds exactly when the chain of parents is finite, every parent is
   known, and every role on the way builds; and then it gives what the role means.
   */
  lemma ResolvedIsMeaning(drafts: Drafts, name: string, role: Role)
    requires name in drafts
    ensures Resolved(drafts, name, []) == Ok(role) <==> HasMeaning(drafts, name, role)
  {
    if Resolved(drafts, name, []).Ok? {
      var n := ResolvedReaches(drafts, name, []);
      ReachesResolves(drafts, name, n, []);
    }
    if HasMeaning(drafts, name, role) {
      var n: nat :| Reaches(drafts, name, n) && Meaning(drafts, name, n) == Ok(role);
      ReachesResolves(drafts, name, n, []);
    }
  }

  // ---- loading ----

  /** The `[roles]` table: its sections, in the order of the file. */
  datatype Sections = Sections(names: seq<string>, bodies: map<string, Value>)

  ghost predicate Listed(file: Sections) {
    forall name :: name in file.names <==> name in file.bodies
  }

  predicate AllDrafted(file: Sections) {
    forall name :: name in file.bodies ==> Drafted(name, file.bodies[name]).Ok?
  }

  function DraftsOf(file: Sections): Drafts
    requires AllDrafted(file)
  {
    map name | name in file.bodies :: Drafted(name, file.bodies[name]).value
  }

  /** What a load raises: the first section that is malformed, else the first role that does not resolve. */
  ghost predicate Raised(file: Sections, error: RoleError)
    requires Listed(file)
  {
    if file.names == [] then error == NoRoles
    else if !AllDrafted(file) then
      exists k :: 0 <= k < |file.names| && Drafted(file.names[k], file.bodies[file.names[k]]) == Err(error)
               && forall j :: 0 <= j < k ==> Drafted(file.names[j], file.bodies[file.names[j]]).Ok?
    else
      exists k :: 0 <= k < |file.names| && Resolved(DraftsOf(file), file.names[k], []) == Err(error)
               && forall j :: 0 <= j < k ==> Resolved(DraftsOf(file), file.names[j], []).Ok?
  }

  /** The section names this parent; an empty name is none. */
  predicate NamesParent(body: Value, parent: string) {
    body.Table? && "extends" in body.entries && body.entries["extends"] == Str(parent) && parent != ""
  }

  /** A section is a table of known settings whose `extends`, if any, is a name. */
  predicate WellFormed(body: Value) {
    && body.Table? && body.entries.Keys <= KNOWN_KEYS
    && ("extends" in body.entries ==> body.entries["extends"].Str?)
  }

  /** Every section's role is what it builds over the role of the parent it names, or over nothing. */
  ghost predicate RolesTell(file: Sections, roles: map<string, Role>) {
    && roles.Keys == file.bodies.Keys
    && forall name :: name in roles ==> RoleTells(name, file.bodies[name], roles)
  }

  ghost predicate RoleTells(name: string, body: Value, roles: map<string, Role>)
    requires name in roles
  {
    && WellFormed(body)
    && (forall parent :: NamesParent(body, parent) ==>
          parent in roles && Built(name, body.entries, Some(roles[parent])) == Ok(roles[name]))
    && ((forall parent :: !NamesParent(body, parent)) ==> Built(name, body.entries, None) == Ok(roles[name]))
  }

  /** What a malformed section is refused for is so. */
  predicate SectionComplains(name: string, body: Value, error: RoleError) {
    match error
    case NotTable(role) => role == name && !body.Table?
    case UnknownSettings(role, names) => role == name && body.Table? && names != {} && names == body.entries.Keys - KNOWN_KEYS
    case BadExtends(role) => role == name && body.Table? && "extends" in body.entries && !body.entries["extends"].Str?
    case _ => false
  }

  lemma DraftedTells(name: string, body: Value)
    ensures Drafted(name, body).Ok? <==> WellFormed(body)
    ensures Drafted(name, body).Err? ==> SectionComplains(name, body, Drafted(name, body).error)
    ensures Drafted(name, body).Ok? ==>
      var draft := Drafted(name, body).value;
      draft.raw == body.entries && forall parent :: ParentOf(draft) == Some(parent) <==> NamesParent(body, parent)
  {
    hide KNOWN_KEYS;
    if body.Table? { NothingLeft(body.entries.Keys, KNOWN_KEYS); }
  }

  lemma ResolvedTells(drafts: Drafts, name: string)
    requires name in drafts && Resolved(drafts, name, []).Ok?
    ensures
      var role := Resolved(drafts, name, []).value;
      match ParentOf(drafts[name])
      case None => Built(name, drafts[name].raw, None) == Ok(role)
      case Some(parent) =>
        && parent in drafts && Resolved(drafts, parent, []).Ok?
        && Built(name, drafts[name].raw, Some(Resolved(drafts, parent, []).value)) == Ok(role)
  {
    hide Built;
    var n := ResolvedReaches(drafts, name, []);
    ReachesResolves(drafts, name, n, []);
    if n > 0 { ReachesResolves(drafts, ParentOf(drafts[name]).value, n - 1, []); }
  }

  lemma LoadedTells(file: Sections, roles: map<string, Role>)
    requires AllDrafted(file) && roles.Keys == file.bodies.Keys
    requires forall name :: name in roles ==> Resolved(DraftsOf(file), name, []) == Ok(roles[name])
    ensures RolesTell(file, roles)
  {
    hide Built, Resolved, Drafted, ParentOf, NamesParent, WellFormed;
    forall name | name in roles ensures RoleTells(name, file.bodies[name], roles) {
      DraftedTells(name, file.bodies[name]);
      ResolvedTells(DraftsOf(file), name);
      if ParentOf(DraftsOf(file)[name]).Some? { assert NamesParent(file.bodies[name], ParentOf(DraftsOf(file)[name]).value); }
    }
  }

  /** What a role is refused for, somewhere up its chain of parents, is so. */
  ghost predicate ChainComplains(drafts: Drafts, error: RoleError) {
    match error
    case Circle(trail) =>
      && |trail| >= 2 && trail[|trail| - 1] in trail[..|trail| - 1]
      && forall i :: 0 <= i < |trail| - 1 ==> Extends(drafts, trail[i], trail[i + 1])
    case UnknownParent(role, parent) => Extends(drafts, role, parent) && parent !in drafts
    case _ => exists name, above :: name in drafts && Built(name, drafts[name].raw, above) == Err(error)
  }

  lemma {:induction false} PathExtends(drafts: Drafts, trail: seq<string>, name: string)
    requires IsPath(drafts, trail, name)
    ensures forall i :: 0 <= i < |trail| ==> Extends(drafts, trail[i], (trail + [name])[i + 1])
  {
    if trail != [] {
      var last := |trail| - 1;
      PathExtends(drafts, trail[..last], trail[last]);
      assert trail[..last] + [trail[last]] == trail;
    }
  }

  lemma {:induction false} ResolvedComplains(drafts: Drafts, name: string, trail: seq<string>)
    requires name in drafts && IsPath(drafts, trail, name) && Resolved(drafts, name, trail).Err?
    ensures ChainComplains(drafts, Resolved(drafts, name, trail).error)
    decreases |drafts.Keys - AsSet(trail)|
  {
    hide Built, IsPath, Extends;
    if name in trail {
      PathExtends(drafts, trail, name);
      assert (trail + [name])[..|trail|] == trail;
    } else {
      ResolveComplains(drafts, name, trail);
    }
  }

  lemma ResolveComplains(drafts: Drafts, name: string, trail: seq<string>)
    requires name in drafts && name !in trail && IsPath(drafts, trail, name) && Resolved(drafts, name, trail).Err?
    ensures ChainComplains(drafts, Resolved(drafts, name, trail).error)
    decreases |drafts.Keys - AsSet(trail)|, 0
  {
    hide Built, IsPath;
    match ParentOf(drafts[name])
    case None => BuildComplains(drafts, name, None);
    case Some(parent) =>
      if parent in drafts {
        TrailGrows(drafts, name, trail);
        PathGrows(drafts, trail, name, parent);
        var above := Resolved(drafts, parent, trail + [name]);
        if above.Err? {
          ResolvedComplains(drafts, parent, trail + [name]);
        } else {
          BuildComplains(drafts, name, Some(above.value));
        }
      }
  }

  lemma BuildComplains(drafts: Drafts, name: string, above: Option<Role>)
    requires name in drafts && Built(name, drafts[name].raw, above).Err?
    ensures ChainComplains(drafts, Built(name, drafts[name].raw, above).error)
  {
    RefusesOwn(name, drafts[name].raw, above);
    hide Built;
    assert Built(name, drafts[name].raw, above) == Err(Built(name, drafts[name].raw, above).error);
  }

  /** Building one role raises nothing about circles or parents. */
  lemma RefusesOwn(name: string, raw: Raw, above: Option<Role>)
    requires Built(name, raw, above).Err?
    ensures !Built(name, raw, above).error.Circle? && !Built(name, raw, above).error.UnknownParent?
  {
  }

  /** What a load raises is so: of the file, of a section, or of a chain of parents. */
  lemma RaisedComplains(file: Sections, error: RoleError)
    requires Listed(file) && Raised(file, error)
    ensures
      || (error == NoRoles && file.bodies == map[])
      || (exists name :: name in file.bodies && SectionComplains(name, file.bodies[name], error))
      || (AllDrafted(file) && ChainComplains(DraftsOf(file), error))
  {
    hide Built, Resolved, Drafted, SectionComplains, ChainComplains;
    if file.names == [] {
      assert file.bodies.Keys == {};
    } else if !AllDrafted(file) {
      var k :| 0 <= k < |file.names| && Drafted(file.names[k], file.bodies[file.names[k]]) == Err(error);
      DraftedTells(file.names[k], file.bodies[file.names[k]]);
    } else {
      var k :| 0 <= k < |file.names| && Resolved(DraftsOf(file), file.names[k], []) == Err(error);
      ResolvedComplains(DraftsOf(file), file.names[k], []);
    }
  }

  method Load(file: Sections) returns (r: Result<map<string, Role>, RoleError>)
    requires Listed(file)
    ensures r.Ok? <==>
      file.names != [] && AllDrafted(file) && forall name :: name in file.bodies ==> Resolved(DraftsOf(file), name, []).Ok?
    ensures r.Ok? ==> r.value.Keys == file.bodies.Keys
    ensures r.Ok? ==> forall name :: name in r.value ==> Resolved(DraftsOf(file), name, []) == Ok(r.value[name])
    ensures r.Err? ==> Raised(file, r.error)
    ensures r.Ok? ==> RolesTell(file, r.value)
  {
    hide Built, Resolved, Drafted, RolesTell;
    if file.names == [] {
      return Err(NoRoles);
    }
    var drafts: Drafts := map[];
    for i := 0 to |file.names|
      invariant forall name :: name in drafts <==> name in file.names[..i]
      invariant forall name :: name in drafts ==> name in file.bodies && Drafted(name, file.bodies[name]) == Ok(drafts[name])
    {
      assert file.names[..i + 1] == file.names[..i] + [file.names[i]];
      var draft :- Drafted(file.names[i], file.bodies[file.names[i]]);
      drafts := drafts[file.names[i] := draft];
    }
    assert file.names[..|file.names|] == file.names;
    assert drafts == DraftsOf(file);
    var loader := new RoleLoader(drafts);
    for i := 0 to |file.names|
      invariant loader.Valid() && loader.drafts == drafts && fresh(loader)
      invariant forall name :: name in file.names[..i] ==> name in loader.resolved
    {
      assert file.names[..i + 1] == file.names[..i] + [file.names[i]];
      var role :- loader.Resolve(file.names[i], []);
    }
    r := Ok(map name | name in file.bodies :: loader.resolved[name]);
    LoadedTells(file, r.value);
  }

  // ---- what is inherited ----

  /** The role and its ancestors, nearest first. */
  function Chain(drafts: Drafts, name: string, n: nat): (chain: seq<string>)
    requires Reaches(drafts, name, n)
    ensures |chain| == n + 1 && chain[0] == name
    ensures forall k :: 0 <= k <= n ==> Reaches(drafts, chain[k], n - k)
    decreases n
  {
    [name] + if n == 0 then [] else Chain(drafts, ParentOf(drafts[name]).value, n - 1)
  }

  /** The value the chain gives: that of the nearest role whose own section has the setting. */
  function FirstGiven(drafts: Drafts, chain: seq<string>, setting: Setting): Settled
    requires forall name :: name in chain ==> name in drafts
  {
    if chain == [] then Default(setting)
    else if Own(drafts[chain[0]].raw, setting).Some? then Own(drafts[chain[0]].raw, setting).value
    else FirstGiven(drafts, chain[1..], setting)
  }

  /** Every setting of a resolved role is that of the nearest ancestor that gives it, or the default. */
  lemma {:induction false} NearestAncestorGives(drafts: Drafts, name: string, n: nat, setting: Setting)
    requires Reaches(drafts, name, n) && Meaning(drafts, name, n).Ok?
    ensures
      && (forall c :: c in Chain(drafts, name, n) ==> c in drafts)
      && Get(Meaning(drafts, name, n).value, setting) == FirstGiven(drafts, Chain(drafts, name, n), setting)
    decreases n
  {
    var chain := Chain(drafts, name, n);
    hide Own, Get, Built, Default;
    forall c | c in chain ensures c in drafts {
      var k :| 0 <= k < |chain| && chain[k] == c;
      assert Reaches(drafts, chain[k], n - k);
    }
    if n == 0 {
      BuiltSetting(name, drafts[name].raw, None, setting);
    } else {
      var parent := ParentOf(drafts[name]).value;
      NearestAncestorGives(drafts, parent, n - 1, setting);
      BuiltSetting(name, drafts[name].raw, Some(Meaning(drafts, parent, n - 1).value), setting);
      assert chain[1..] == Chain(drafts, parent, n - 1);
    }
  }

  predicate OnlyAdds(raw: Raw) { "tools" !in raw && "drop_tools" !in raw }

  /** Down a chain whose roles only add tools, the ancestor's list stays the front of the list. */
  lemma {:induction false} AddOnlyChainKeepsFront(drafts: Drafts, name: string, n: nat, k: nat)
    requires Reaches(drafts, name, n) && Meaning(drafts, name, n).Ok? && k <= n
    requires forall j :: 0 <= j < k ==> OnlyAdds(drafts[Chain(drafts, name, n)[j]].raw)
    ensures
      var ancestor := Meaning(drafts, Chain(drafts, name, n)[k], n - k);
      ancestor.Ok? && ancestor.value.tools <= Meaning(drafts, name, n).value.tools
    decreases n
  {
    hide Built;
    if k > 0 {
      var parent, chain := ParentOf(drafts[name]).value, Chain(drafts, name, n);
      var above := Chain(drafts, parent, n - 1);
      forall j | 0 <= j < k - 1 ensures OnlyAdds(drafts[above[j]].raw) {
        assert above[j] == chain[j + 1];
      }
      assert OnlyAdds(drafts[chain[0]].raw);
      AddOnlyChainKeepsFront(drafts, parent, n - 1, k - 1);
      AddingKeepsFront(name, drafts[name].raw, Meaning(drafts, parent, n - 1).value);
    }
  }

  /** Every resolved role has its own name and grants something, all of it served. */
  lemma MeaningIsServed(drafts: Drafts, name: string, role: Role)
    requires HasMeaning(drafts, name, role)
    ensures role.name == name && role.tools != [] && forall t :: t in role.tools ==> t in TOOL_NAMES
  {
    var n: nat :| Reaches(drafts, name, n) && Meaning(drafts, name, n) == Ok(role);
    var above := if n == 0 then None else Some(Meaning(drafts, ParentOf(drafts[name]).value, n - 1).value);
    BuiltToolsAreServed(name, drafts[name].raw, above);
    BuiltSetting(name, drafts[name].raw, above, Description);
    hide Built;
  }
}
