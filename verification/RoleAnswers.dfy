/**
 What one section of the roles file comes to, said of the section itself: each field
 of the role it builds, the order of its tools, and what a refusal complains of.
 */
module RoleAnswers {
  import opened Wrappers
  import opened RoleBuild

  /** `str(v)`. */
  predicate Prints(v: Value, shown: string) {
    match v
    case Str(text) => shown == text
    case Bool(on) => shown == if on then "True" else "False"
    case List(_, text) => shown == text
    case Table(_, text) => shown == text
    case Other(text) => shown == text
  }

  /** The items of this list, one by one. */
  predicate ListsTexts(v: Value, texts: seq<string>) {
    v.List? && |v.items| == |texts| && forall i :: 0 <= i < |texts| ==> v.items[i] == Str(texts[i])
  }

  /** The list under a key, or what is inherited without the key. */
  predicate TakesTexts(entries: Raw, key: string, inherited: seq<string>, texts: seq<string>) {
    if key in entries then ListsTexts(entries[key], texts) else texts == inherited
  }

  predicate TakesFlag(raw: Raw, key: string, inherited: bool, flag: bool) {
    if key in raw then raw[key] == Bool(flag) else flag == inherited
  }

  /** The entries of the section's container table, if it has one. */
  function TableOf(raw: Raw): Raw {
    if "containers" in raw && raw["containers"].Table? then raw["containers"].entries else map[]
  }

  lemma TextsAreListed(v: Value)
    requires IsStrings(v)
    ensures ListsTexts(v, Texts(v))
  {
  }

  /** Every field of a built role, tools aside: what its section says, else what it inherits. */
  lemma BuiltFields(name: string, raw: Raw, parent: Option<Role>)
    requires Built(name, raw, parent).Ok?
    ensures
      var role := Built(name, raw, parent).value;
      var base := if parent.Some? then parent.value else Role(name, "", [], [], [], [], false, false, None);
      && role.name == name
      && (if "description" in raw then Prints(raw["description"], role.description) else role.description == base.description)
      && TakesTexts(raw, "databases", base.databases, role.databases)
      && TakesTexts(TableOf(raw), "allow", base.allowContainers, role.allowContainers)
      && TakesTexts(TableOf(raw), "deny", base.denyContainers, role.denyContainers)
      && TakesFlag(raw, "allow_raw_sample", base.allowRawSample, role.allowRawSample)
      && TakesFlag(raw, "annotate_as_human", base.annotateAsHuman, role.annotateAsHuman)
      && (if "lifetime" in raw then role.lifetime.Some? && Prints(raw["lifetime"], role.lifetime.value)
          else role.lifetime == base.lifetime)
  {
    hide EditedTools, CheckedTools;
  }

  // ---- the tools, in order ----

  /** These positions pick this list out of that one, from front to back. */
  ghost predicate Picks(at: seq<nat>, from: seq<string>, picked: seq<string>) {
    && |at| == |picked|
    && (forall i, j :: 0 <= i < j < |at| ==> at[i] < at[j])
    && forall i :: 0 <= i < |at| ==> at[i] < |from| && from[at[i]] == picked[i]
  }

  lemma {:induction false} DroppingLast(tools: seq<string>, x: string, dropped: set<string>)
    ensures Dropping(tools + [x], dropped) == Dropping(tools, dropped) + if x in dropped then [] else [x]
  {
    if tools == [] {
      assert [x][1..] == [];
    } else {
      assert (tools + [x])[1..] == tools[1..] + [x];
      DroppingLast(tools[1..], x, dropped);
    }
  }

  lemma OneMorePick(at: seq<nat>, from: seq<string>, picked: seq<string>, x: string)
    requires Picks(at, from, picked)
    ensures Picks(at, from + [x], picked) && Picks(at + [|from|], from + [x], picked + [x])
  {
  }

  lemma {:induction false} DroppingPicks(tools: seq<string>, dropped: set<string>) returns (at: seq<nat>)
    ensures Picks(at, tools, Dropping(tools, dropped))
    ensures forall p: nat :: p in at <==> p < |tools| && tools[p] !in dropped
  {
    at := [];
    if tools != [] {
      var n := |tools| - 1;
      at := DroppingPicks(tools[..n], dropped);
      var earlier := Dropping(tools[..n], dropped);
      assert tools == tools[..n] + [tools[n]];
      DroppingLast(tools[..n], tools[n], dropped);
      hide Dropping, Picks;
      OneMorePick(at, tools[..n], earlier, tools[n]);
      if tools[n] !in dropped {
        at := at + [n];
      } else {
        assert earlier + [] == earlier;
      }
    }
  }

  /** Where a name is first given. */
  function First(names: seq<string>, name: string): (i: nat)
    requires name in names
    ensures i < |names| && names[i] == name && name !in names[..i]
  {
    if names[0] == name then 0 else 1 + First(names[1..], name)
  }

  /** The list with the extras it lacks behind it, each once, as they are first given. */
  ghost predicate Extends(tools: seq<string>, extras: seq<string>, r: seq<string>) {
    && tools <= r
    && (forall x :: x in extras ==> x in r)
    && (forall i :: |tools| <= i < |r| ==> r[i] in extras && r[i] !in tools)
    && forall i, j :: |tools| <= i < j < |r| ==> r[i] in extras && r[j] in extras && First(extras, r[i]) < First(extras, r[j])
  }

  lemma {:induction false} AddMissingExtends(tools: seq<string>, extras: seq<string>)
    ensures Extends(tools, extras, AddMissing(tools, extras))
    decreases |extras|
  {
    if extras != [] {
      var e := extras[0];
      var more := if e in tools then tools else tools + [e];
      AddMissingExtends(more, extras[1..]);
      OneMoreExtra(tools, extras, more, AddMissing(more, extras[1..]));
    }
  }

  lemma OneMoreExtra(tools: seq<string>, extras: seq<string>, more: seq<string>, r: seq<string>)
    requires extras != [] && more == if extras[0] in tools then tools else tools + [extras[0]]
    requires Extends(more, extras[1..], r)
    ensures Extends(tools, extras, r)
  {
    assert extras == [extras[0]] + extras[1..];
    assert extras[0] in more && forall x :: x in more ==> x in r;
    forall i, j | |tools| <= i < j < |r| ensures r[i] in extras && r[j] in extras && First(extras, r[i]) < First(extras, r[j]) {
      assert r[j] in extras[1..] && r[j] !in more;
      if i >= |more| { assert r[i] in extras[1..] && r[i] !in more; }
    }
  }

  /** `tools` is taken as it is; else the parent's list extended by `add_tools`, and of that, in order, what is not dropped. */
  lemma BuiltToolOrder(name: string, raw: Raw, parent: Option<Role>) returns (added: seq<string>, at: seq<nat>)
    requires Built(name, raw, parent).Ok?
    ensures
      var tools := Built(name, raw, parent).value.tools;
      var inherited := if parent.Some? then parent.value.tools else [];
      if "tools" in raw then ListsTexts(raw["tools"], tools)
      else
        && ("add_tools" in raw ==> IsStrings(raw["add_tools"])) && ("drop_tools" in raw ==> IsStrings(raw["drop_tools"]))
        && Extends(inherited, if "add_tools" in raw then Texts(raw["add_tools"]) else [], added)
        && Picks(at, added, tools)
        && forall p: nat :: p in at <==> p < |added| && !("drop_tools" in raw && added[p] in Texts(raw["drop_tools"]))
  {
    hide AddMissing, Dropping, Containers, Flag, Extends, Picks;
    added, at := [], [];
    if "tools" !in raw {
      var base := if parent.Some? then parent.value else Blank(name);
      var extras := StringsAt(name, "add_tools", raw, "add_tools", []).value;
      var drops := StringsAt(name, "drop_tools", raw, "drop_tools", []).value;
      added := AddMissing(base.tools, extras);
      AddMissingExtends(base.tools, extras);
      at := DroppingPicks(added, AsSet(drops));
    }
  }

  // ---- refusals ----

  /** What a refusal complains of is so. */
  predicate Complains(name: string, raw: Raw, inherited: set<string>, error: RoleError) {
    match error
    case BothToolForms(role) => role == name && "tools" in raw && ("add_tools" in raw || "drop_tools" in raw)
    case NotStrings(role, key) =>
      role == name
      && (|| (key in {"tools", "add_tools", "drop_tools", "databases"} && key in raw && !IsStrings(raw[key]))
          || (key == "containers.allow" && "allow" in TableOf(raw) && !IsStrings(TableOf(raw)["allow"]))
          || (key == "containers.deny" && "deny" in TableOf(raw) && !IsStrings(TableOf(raw)["deny"])))
    case NotFlag(role, key) => role == name && key in {"allow_raw_sample", "annotate_as_human"} && key in raw && !raw[key].Bool?
    case DropsUnheard(role, names) =>
      role == name && names != {} && names == NamesAt(raw, "drop_tools") - inherited - NamesAt(raw, "add_tools")
    case UnknownTools(role, names) => role == name && names != {} && names == Granted(raw, inherited) - TOOL_NAMES
    case NoTools(role) => role == name && Granted(raw, inherited) == {}
    case BadContainers(role) => role == name && "containers" in raw && !raw["containers"].Table?
    case UnknownContainerKeys(role, names) => role == name && names != {} && names == TableOf(raw).Keys - {"allow", "deny"}
    case _ => false
  }

  lemma EditedComplains(name: string, raw: Raw, base: Role)
    ensures EditedTools(name, raw, base).Err? ==> Complains(name, raw, AsSet(base.tools), EditedTools(name, raw, base).error)
  {
    hide AddMissing, Dropping, Texts, Granted, TOOL_NAMES;
    if "tools" !in raw && StringsOrAbsent(raw, "add_tools") && StringsOrAbsent(raw, "drop_tools") {
      var extras := StringsAt(name, "add_tools", raw, "add_tools", []).value;
      var drops := StringsAt(name, "drop_tools", raw, "drop_tools", []).value;
      AddMissingKeeps(base.tools, extras);
      assert AsSet([]) == {};
      assert AsSet(extras) == NamesAt(raw, "add_tools") && AsSet(drops) == NamesAt(raw, "drop_tools");
      assert AsSet(AddMissing(base.tools, extras)) == AsSet(base.tools) + AsSet(extras);
    }
  }

  lemma CheckedComplains(name: string, raw: Raw, base: Role)
    requires EditedTools(name, raw, base).Ok?
    ensures
      var checked := CheckedTools(name, EditedTools(name, raw, base).value);
      checked.Err? ==> Complains(name, raw, AsSet(base.tools), checked.error)
  {
    EditedToolsIff(name, raw, base);
    hide EditedTools, Granted, NamesAt, StringsOrAbsent, IsStrings, TableOf, TOOL_NAMES;
    assert AsSet([]) == {};
  }

  /** Every refusal of a section says something true of it. */
  lemma RefusalsComplain(name: string, raw: Raw, parent: Option<Role>)
    ensures Built(name, raw, parent).Err? ==> Complains(name, raw, Inherited(parent), Built(name, raw, parent).error)
  {
    hide EditedTools, CheckedTools, Granted, NamesAt, Texts, TOOL_NAMES, IsStrings;
    var base := if parent.Some? then parent.value else Blank(name);
    EditedComplains(name, raw, base);
    if EditedTools(name, raw, base).Ok? { CheckedComplains(name, raw, base); }
    assert AsSet([]) == {};
  }
}
