/** Choosing which registered collectors run. */
module Registry {
  import opened History

  datatype Entry = Entry(name: string, isDefault: bool)

  // ---- the choice as its documentation states it ----

  predicate Chosen(e: Entry, enabled: seq<string>, disabled: seq<string>) {
    (if enabled == [] then e.isDefault else e.name in enabled) && e.name !in disabled
  }

  /** The chosen names in registry order. */
  function Selection(registry: seq<Entry>, enabled: seq<string>, disabled: seq<string>): seq<string> {
    if registry == [] then []
    else Selection(Init(registry), enabled, disabled)
         + if Chosen(Last(registry), enabled, disabled) then [Last(registry).name] else []
  }

  predicate Known(registry: seq<Entry>, name: string) {
    exists i :: 0 <= i < |registry| && registry[i].name == name
  }

  function UnknownNames(registry: seq<Entry>, names: seq<string>): seq<string> {
    if names == [] then []
    else UnknownNames(registry, Init(names)) + if Known(registry, Last(names)) then [] else [Last(names)]
  }

  // ---- the code ----

  method KnownNames(registry: seq<Entry>) returns (known: set<string>)
    ensures forall name :: name in known <==> Known(registry, name)
  {
    known := {};
    var i := 0;
    while i < |registry|
      invariant 0 <= i <= |registry|
      invariant forall name :: name in known <==> exists j :: 0 <= j < i && registry[j].name == name
    {
      known := known + {registry[i].name};
      i := i + 1;
    }
  }

  /** The known names listed, and the unknown ones in order. */
  method Classify(registry: seq<Entry>, known: set<string>, names: seq<string>, before: seq<string>)
    returns (listed: set<string>, unknown: seq<string>)
    requires forall name :: name in known <==> Known(registry, name)
    ensures forall name :: name in listed <==> name in names && Known(registry, name)
    ensures unknown == before + UnknownNames(registry, names)
  {
    listed, unknown := {}, before;
    var i := 0;
    while i < |names|
      invariant 0 <= i <= |names|
      invariant forall name :: name in listed <==> name in names[..i] && Known(registry, name)
      invariant unknown == before + UnknownNames(registry, names[..i])
    {
      assert names[..i + 1] == names[..i] + [names[i]] && Init(names[..i + 1]) == names[..i];
      if names[i] !in known {
        unknown := unknown + [names[i]];
      } else {
        listed := listed + {names[i]};
      }
      i := i + 1;
    }
    assert names[..i] == names;
  }

  /** `failed` is the non-fatal error about unknown names. */
  method ResolveCollectors(registry: seq<Entry>, enabled: seq<string>, disabled: seq<string>)
    returns (out: seq<string>, failed: bool)
    ensures out == Selection(registry, enabled, disabled)
    ensures failed <==> exists name :: (name in enabled || name in disabled) && !Known(registry, name)
  {
    var known := KnownNames(registry);
    var enabledSet, unknown := Classify(registry, known, enabled, []);
    var disabledSet;
    disabledSet, unknown := Classify(registry, known, disabled, unknown);
    var explicitEnable := |enabled| > 0;
    out := [];
    var i := 0;
    while i < |registry|
      invariant 0 <= i <= |registry|
      invariant out == Selection(registry[..i], enabled, disabled)
    {
      var e := registry[i];
      assert Known(registry, e.name);
      var chosen := e.isDefault;
      if explicitEnable { chosen := e.name in enabledSet; }
      if e.name in disabledSet { chosen := false; }
      assert Init(registry[..i + 1]) == registry[..i];
      if chosen { out := out + [e.name]; }
      i := i + 1;
    }
    assert registry[..i] == registry;
    failed := |unknown| > 0;
    UnknownNamesEmptyIff(registry, enabled);
    UnknownNamesEmptyIff(registry, disabled);
  }

  lemma {:induction false} UnknownNamesEmptyIff(registry: seq<Entry>, names: seq<string>)
    ensures UnknownNames(registry, names) == [] <==> forall name :: name in names ==> Known(registry, name)
  {
    if names != [] {
      UnknownNamesEmptyIff(registry, Init(names));
      assert names == Init(names) + [Last(names)];
    }
  }

  // ---- what the choice means ----

  ghost predicate Distinct(registry: seq<Entry>) {
    forall i, j :: 0 <= i < j < |registry| ==> registry[i].name != registry[j].name
  }

  /**
   The result holds exactly the registered names that are enabled (listed, or default
   when nothing is listed) and not disabled.
   */
  lemma {:induction false} SelectionMembers(registry: seq<Entry>, enabled: seq<string>, disabled: seq<string>, name: string)
    ensures name in Selection(registry, enabled, disabled) <==>
      && name !in disabled && (enabled != [] ==> name in enabled)
      && exists i :: 0 <= i < |registry| && registry[i].name == name && (enabled == [] ==> registry[i].isDefault)
  {
    if registry != [] {
      var prev := Init(registry);
      SelectionMembers(prev, enabled, disabled, name);
      if i :| 0 <= i < |prev| && prev[i].name == name && (enabled == [] ==> prev[i].isDefault) {
        assert registry[i] == prev[i];
      }
      if i :| 0 <= i < |registry| && registry[i].name == name && (enabled == [] ==> registry[i].isDefault) {
        if i < |prev| { assert prev[i] == registry[i]; }
      }
    }
  }

  /** The place of each result in the registry. */
  ghost predicate Places(registry: seq<Entry>, out: seq<string>, at: seq<nat>) {
    && |at| == |out|
    && (forall k :: 0 <= k < |out| ==> at[k] < |registry| && registry[at[k]].name == out[k])
    && (forall j, k :: 0 <= j < k < |out| ==> at[j] < at[k])
  }

  /** The result is in registry order, and free of duplicates when the registry is. */
  lemma {:induction false} SelectionOrdered(registry: seq<Entry>, enabled: seq<string>, disabled: seq<string>)
    returns (at: seq<nat>)
    ensures Places(registry, Selection(registry, enabled, disabled), at)
    ensures Distinct(registry) ==>
      var out := Selection(registry, enabled, disabled); forall j, k :: 0 <= j < k < |out| ==> out[j] != out[k]
  {
    if registry == [] {
      at := [];
    } else {
      at := SelectionOrdered(Init(registry), enabled, disabled);
      if Chosen(Last(registry), enabled, disabled) { at := at + [|registry| - 1]; }
    }
  }

  /** Only which names are listed matters, not their order or repetition. */
  lemma {:induction false} SelectionDependsOnSets(
      registry: seq<Entry>, enabled: seq<string>, disabled: seq<string>, enabled': seq<string>, disabled': seq<string>)
    requires forall name :: name in enabled <==> name in enabled'
    requires forall name :: name in disabled <==> name in disabled'
    ensures Selection(registry, enabled, disabled) == Selection(registry, enabled', disabled')
  {
    assert enabled == [] <==> enabled' == [] by {
      if enabled != [] { assert enabled[0] in enabled'; }
      if enabled' != [] { assert enabled'[0] in enabled; }
    }
    if registry != [] { SelectionDependsOnSets(Init(registry), enabled, disabled, enabled', disabled'); }
  }

  /** Asking only for unknown names selects nothing, not the defaults. */
  lemma UnknownEnableSelectsNothing(registry: seq<Entry>, enabled: seq<string>, disabled: seq<string>)
    requires enabled != [] && forall name :: name in enabled ==> !Known(registry, name)
    ensures Selection(registry, enabled, disabled) == []
  {
  }
}
