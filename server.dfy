/**
 * The render server of protocol version 2 (server/main.cpp): the registry of
 * named scene data (plugin instances and Blender meshes), scene objects and
 * materials, plugin loading and parameter checking, and the render state
 * machine that renders progressively, first at reduced resolution and then
 * sample by sample.
 *
 * The global maps of the server are the fields of one `Store` value, and
 * each operation on them is a function from the old store to the new one;
 * the server object of module RenderServer holds the current store. Plugins, OSPRay and the file system are outside:
 * what a plugin library does when it is opened, initialised or asked to
 * generate is a parameter, and OSPRay objects are opaque handles.
 */
module Server {
  import opened Bytes
  import opened Wrappers
  import opened TcpSocket
  import opened Framing
  import Json
  import ServerIO
  import BoundingMesh
  import Plugin2

  // ---------------------------------------------------------------------
  // Plugin parameters
  // ---------------------------------------------------------------------

  /** `flags & FLAG_OPTIONAL`: the low bit of the flags word. */
  predicate IsOptional(p: Plugin2.ParameterDefinition)
  {
    p.flags % 2 == 1
  }

  /**
   * A value present for a definition has the shape it asks for: an array
   * when its length is above 1, otherwise a primitive that, for an integer,
   * float or string parameter, has that type. Array items are not checked.
   */
  predicate Shaped(p: Plugin2.ParameterDefinition, v: Json.Value)
  {
    if p.length > 1 then v.JArray?
    else
      Json.IsPrimitive(v) &&
      (p.paramType == Plugin2.PARAM_INT ==> Json.IsInteger(v)) &&
      (p.paramType == Plugin2.PARAM_FLOAT ==> v.JFloat?) &&
      (p.paramType == Plugin2.PARAM_STRING ==> v.JString?)
  }

  /** A definition is met: a missing value is allowed only when the parameter is optional. */
  predicate Satisfied(p: Plugin2.ParameterDefinition, actual: Json.Value)
  {
    match Json.Find(actual, p.name)
    case None => IsOptional(p)
    case Some(v) => Shaped(p, v)
  }

  /** The names of the definitions the actual parameters do not meet, in definition order. */
  function Failures(defs: seq<Plugin2.ParameterDefinition>, actual: Json.Value): (names: seq<string>)
    ensures |names| <= |defs|
  {
    if defs == [] then []
    else
      var last := defs[|defs| - 1];
      Failures(defs[..|defs| - 1], actual) + (if Satisfied(last, actual) then [] else [last.name])
  }

  /**
   * The failures are empty exactly when every definition is met, and they
   * are the names of the definitions that are not.
   */
  lemma {:induction false} FailuresMeaning(defs: seq<Plugin2.ParameterDefinition>, actual: Json.Value)
    ensures Failures(defs, actual) == [] <==> forall i :: 0 <= i < |defs| ==> Satisfied(defs[i], actual)
    ensures forall i :: 0 <= i < |defs| && !Satisfied(defs[i], actual) ==> defs[i].name in Failures(defs, actual)
    ensures forall n :: n in Failures(defs, actual) ==>
              exists i :: 0 <= i < |defs| && !Satisfied(defs[i], actual) && defs[i].name == n
  {
    if defs != [] {
      var init := defs[..|defs| - 1];
      FailuresMeaning(init, actual);
      assert forall i :: 0 <= i < |init| ==> init[i] == defs[i];
    }
  }

  /**
   * `check_plugin_parameters`: walks every definition and does not stop at
   * the first one that fails; `failed` lists the parameters an error was
   * printed for. The result object is never touched.
   */
  method CheckPluginParameters(defs: seq<Plugin2.ParameterDefinition>, actual: Json.Value)
    returns (ok: bool, failed: seq<string>)
    ensures ok <==> forall i :: 0 <= i < |defs| ==> Satisfied(defs[i], actual)
    ensures failed == Failures(defs, actual)
  {
    ok := true;
    failed := [];
    var i := 0;
    while i < |defs|
      invariant 0 <= i <= |defs|
      invariant failed == Failures(defs[..i], actual)
      invariant ok <==> failed == []
    {
      var good := CheckParameter(defs[i], actual);
      FailuresNext(defs, i, actual);
      failed := failed + (if good then [] else [defs[i].name]);
      ok := ok && good;
      i := i + 1;
    }
    assert defs[..i] == defs;
    FailuresMeaning(defs, actual);
  }

  /** The checks `check_plugin_parameters` makes of one definition. */
  method CheckParameter(p: Plugin2.ParameterDefinition, actual: Json.Value) returns (good: bool)
    ensures good <==> Satisfied(p, actual)
  {
    good := true;
    var value := Json.Find(actual, p.name);
    if value.None? {
      if !IsOptional(p) {
        good := false;
      }
    } else if p.length > 1 {
      if !value.value.JArray? {
        good := false;
      }
    } else if !Json.IsPrimitive(value.value) {
      good := false;
    } else {
      match p.paramType {
        case PARAM_INT =>
          if !Json.IsInteger(value.value) {
            good := false;
          }
        case PARAM_FLOAT =>
          if !value.value.JFloat? {
            good := false;
          }
        case PARAM_STRING =>
          if !value.value.JString? {
            good := false;
          }
        case PARAM_USER =>
      }
    }
  }

  lemma FailuresNext(defs: seq<Plugin2.ParameterDefinition>, i: nat, actual: Json.Value)
    requires i < |defs|
    ensures Failures(defs[..i + 1], actual) ==
            Failures(defs[..i], actual) + (if Satisfied(defs[i], actual) then [] else [defs[i].name])
  {
    assert defs[..i + 1][..i] == defs[..i];
  }

  // ---------------------------------------------------------------------
  // Plugin names
  // ---------------------------------------------------------------------

  /** The word a plugin type contributes to its internal name; none for an unknown type. */
  function TypeWord(t: Plugin2.PluginType): (w: string)
    ensures t != Plugin2.PT_UNKNOWN ==> |w| > 0 && w[0] != '_'
  {
    match t
    case PT_VOLUME => "volume"
    case PT_GEOMETRY => "geometry"
    case PT_SCENE => "scene"
    case PT_UNKNOWN => ""
  }

  /**
   * The key a loaded plugin is cached under: the type word, an underscore and
   * the plugin's name. Its shared library is this key plus `.so`.
   */
  function InternalName(t: Plugin2.PluginType, name: string): (r: string)
    ensures |r| > |name| && r[|r| - |name|..] == name && r[|r| - |name| - 1] == '_'
  {
    TypeWord(t) + "_" + name
  }

  /** Different plugins never share a cache key. */
  lemma InternalNameInjective(t1: Plugin2.PluginType, n1: string, t2: Plugin2.PluginType, n2: string)
    requires InternalName(t1, n1) == InternalName(t2, n2)
    ensures t1 == t2 && n1 == n2
  {
    var r := InternalName(t1, n1);
    assert r[0] == (TypeWord(t1) + "_")[0] == (TypeWord(t2) + "_")[0];
    assert t1 == t2;
    assert r[|TypeWord(t1)| + 1..] == n1;
  }

  /**
   * The shared library the server opens for a plugin is the one the
   * class-based plugin interface names in its `so_name`.
   */
  lemma LibraryNameAgreesWithPluginInterface(t: Plugin2.PluginType, name: string)
    requires t != Plugin2.PT_UNKNOWN
    ensures InternalName(t, name) + ".so" == Plugin2.TypePrefix(t).value + name + ".so"
  {
  }

  // ---------------------------------------------------------------------
  // Registry entries
  // ---------------------------------------------------------------------

  datatype SceneDataType = SDT_PLUGIN | SDT_BLENDER_MESH

  datatype SceneObjectType = SOT_MESH | SOT_GEOMETRY | SOT_VOLUME | SOT_SLICES | SOT_ISOSURFACES | SOT_SCENE | SOT_LIGHT

  /** A top-level scene object; what each type adds to the world is not modelled. */
  datatype SceneObject = SceneObject(objectType: SceneObjectType, dataLink: string)

  /**
   * What a plugin library provides once initialised: its parameter
   * definitions, whether it has a generate function, and whether what it
   * generates depends on the renderer type.
   */
  datatype PluginDefinition = PluginDefinition(
    parameters: seq<Plugin2.ParameterDefinition>, hasGenerate: bool, usesRendererType: bool)

  /** The outcome of opening and initialising a plugin library. */
  datatype LoadOutcome = OpenFailed | NoInitialize | InitFailed | Initialized(definition: PluginDefinition)

  /** The server-side record of a plugin-generated piece of scene data. */
  datatype PluginInstance = PluginInstance(
    pluginType: Plugin2.PluginType, pluginName: string, parametersHash: string, propertiesHash: string)

  /**
   * The state a plugin generated: the renderer it was generated for, whether
   * that matters, its parameters, which OSPRay objects it set, whether it
   * keeps private data, and its bound.
   */
  datatype PluginState = PluginState(
    renderer: string, usesRendererType: bool, parameters: Json.Value,
    geometry: bool, volume: bool, hasData: bool, bound: Option<BoundingMesh.Mesh>)

  /** The arrays set on a triangle geometry, as raw bytes. */
  datatype Geometry = Geometry(
    positions: Option<seq<byte>>, normals: Option<seq<byte>>,
    colors: Option<seq<byte>>, indices: Option<seq<byte>>)

  const NEW_GEOMETRY: Geometry := Geometry(None, None, None, None)

  /** A Blender mesh; `freed` marks an entry whose mesh object was deleted. */
  datatype BlenderMesh = BlenderMesh(numVertices: u32, numTriangles: u32, geometry: Geometry, freed: bool)

  /** The names registered as plugin-generated data. */
  function PluginNames(types: map<string, SceneDataType>): set<string>
  {
    set n | n in types && types[n] == SDT_PLUGIN
  }

  /**
   * The key under which the definition of an instance's plugin is cached, as
   * `delete_plugin_instance` should look it up.
   */
  function DefinitionKey(inst: PluginInstance): (key: string)
    ensures key == InternalName(inst.pluginType, inst.pluginName)
  {
    InternalName(inst.pluginType, inst.pluginName)
  }

  /** The key `delete_plugin_instance` looks up as written: the bare plugin name. */
  function DefinitionKeyAsWritten(inst: PluginInstance): (key: string)
    ensures key == inst.pluginName
  {
    inst.pluginName
  }

  /**
   * As written, the lookup can never find the instance's own plugin: the bare
   * name is always shorter than the key the definition was cached under.
   * When that definition is the only one loaded, no clear-data function is
   * called, so the plugin's private data is never released.
   */
  lemma DefinitionKeyAsWrittenMissesOwnPlugin(inst: PluginInstance, defs: map<string, PluginDefinition>)
    requires defs.Keys == {DefinitionKey(inst)}
    ensures DefinitionKeyAsWritten(inst) != DefinitionKey(inst)
    ensures DefinitionKeyAsWritten(inst) !in defs
  {
    assert |DefinitionKey(inst)| > |DefinitionKeyAsWritten(inst)|;
  }

  /** The registry after the mesh entries named in `names` are marked freed. */
  function FreeMeshes(meshes: map<string, BlenderMesh>, names: set<string>): (r: map<string, BlenderMesh>)
    ensures r.Keys == meshes.Keys
    ensures forall n :: n in r ==> r[n] == if n in names then meshes[n].(freed := true) else meshes[n]
  {
    map n | n in meshes :: if n in names then meshes[n].(freed := true) else meshes[n]
  }

  /** The names in `names` that are registered as Blender meshes. */
  function MeshNames(types: map<string, SceneDataType>, names: set<string>): set<string>
  {
    set n | n in names && n in types && types[n] == SDT_BLENDER_MESH
  }

  /**
   * The clear-data calls `delete_plugin_instance` makes for the instances in
   * `names`, as written: each instance whose plugin keeps private data, paired
   * with the key its bare plugin name found among the cached definitions.
   */
  function ReleaseCalls(insts: map<string, PluginInstance>, states: map<string, PluginState>,
                        defs: map<string, PluginDefinition>, names: set<string>): set<(string, string)>
  {
    set n | n in names && n in states && states[n].hasData && n in insts && DefinitionKeyAsWritten(insts[n]) in defs
          :: (n, DefinitionKeyAsWritten(insts[n]))
  }

  /** Every name registered as a Blender mesh has a mesh that is not freed. */
  predicate MeshesLive(types: map<string, SceneDataType>, meshes: map<string, BlenderMesh>)
  {
    forall n :: n in types && types[n] == SDT_BLENDER_MESH ==> n in meshes && !meshes[n].freed
  }

  /** Every bound a plugin set can be serialised: its counts fit 32 bits. */
  predicate BoundsEncodable(states: map<string, PluginState>)
  {
    forall n :: n in states && states[n].bound.Some? ==> BoundingMesh.Encodable(states[n].bound.value)
  }

  /** The definition of every instance's plugin is cached. */
  predicate DefinitionsCached(insts: map<string, PluginInstance>, defs: map<string, PluginDefinition>)
  {
    forall n :: n in insts ==> DefinitionKey(insts[n]) in defs
  }

  lemma PluginNamesRemove(types: map<string, SceneDataType>, name: string)
    ensures PluginNames(types - {name}) == PluginNames(types) - {name}
  {
  }

  lemma MeshesLiveRemove(types: map<string, SceneDataType>, meshes: map<string, BlenderMesh>, name: string)
    requires MeshesLive(types, meshes)
    ensures MeshesLive(types - {name}, meshes)
  {
  }

  lemma DefinitionsCachedRemove(insts: map<string, PluginInstance>, defs: map<string, PluginDefinition>, name: string)
    requires DefinitionsCached(insts, defs)
    ensures DefinitionsCached(insts - {name}, defs)
  {
  }

  // ---------------------------------------------------------------------
  // The store
  // ---------------------------------------------------------------------

  /**
   * The server's global scene state: the named scene data and its types,
   * plugin instances and their states, Blender meshes, top-level scene
   * objects, materials, the cached plugin definitions, the world's instances
   * and lights, and the current renderer type. `libraryLoads` records the
   * shared libraries asked for, in order; `dataReleased` the clear-data calls
   * made, each an instance name paired with the key of the definition whose
   * clear-data function was handed the instance's state.
   */
  datatype Store = Store(
    sceneDataTypes: map<string, SceneDataType>,
    pluginInstances: map<string, PluginInstance>,
    pluginState: map<string, PluginState>,
    blenderMeshes: map<string, BlenderMesh>,
    sceneObjects: map<string, SceneObject>,
    sceneMaterials: map<string, Plugin2.Handle>,
    pluginDefinitions: map<string, PluginDefinition>,
    libraryLoads: seq<string>,
    dataReleased: set<(string, string)>,
    instances: seq<Plugin2.Handle>,
    lights: seq<Plugin2.Handle>,
    ambientLight: Plugin2.Handle,
    currentRendererType: string)

  /**
   * Every plugin-typed name has an instance and a state and nothing else
   * does; every mesh-typed name has a live mesh; the definition of every
   * instance's plugin is cached; every bound can be serialised.
   */
  predicate Valid(s: Store)
  {
    s.pluginInstances.Keys == PluginNames(s.sceneDataTypes) &&
    s.pluginState.Keys == PluginNames(s.sceneDataTypes) &&
    MeshesLive(s.sceneDataTypes, s.blenderMeshes) &&
    DefinitionsCached(s.pluginInstances, s.pluginDefinitions) &&
    BoundsEncodable(s.pluginState)
  }

  /** The scene objects, materials, world contents and renderer type of two stores agree. */
  predicate SameWorld(a: Store, b: Store)
  {
    a.sceneObjects == b.sceneObjects && a.sceneMaterials == b.sceneMaterials &&
    a.instances == b.instances && a.lights == b.lights && a.ambientLight == b.ambientLight &&
    a.currentRendererType == b.currentRendererType
  }

  /** The store at start-up: nothing registered, and only the ambient light in the world. */
  function InitialStore(ambient: Plugin2.Handle, rendererType: string): (s: Store)
    ensures Valid(s)
    ensures s.sceneDataTypes == map[] && s.pluginDefinitions == map[] && s.sceneObjects == map[]
    ensures s.lights == [ambient] && s.ambientLight == ambient && s.currentRendererType == rendererType
  {
    Store(map[], map[], map[], map[], map[], map[], map[], [], {}, [], [ambient], ambient, rendererType)
  }

  // ---------------------------------------------------------------------
  // Loading plugins
  // ---------------------------------------------------------------------

  /** The message `ensure_plugin_is_loaded` reports for a library that did not load. */
  function LoadFailure(load: LoadOutcome): (m: string)
    requires !load.Initialized?
    ensures |m| > 0
  {
    match load
    case OpenFailed => "Failed to open plugin"
    case NoInitialize => "Failed to get initialization function from plugin!"
    case InitFailed => "Plugin failed to initialize!"
  }

  /** The store after a load attempt, the definition found and the failure message set, if any. */
  datatype Loading = Loading(store: Store, definition: Option<PluginDefinition>, failure: Option<string>)

  /**
   * `ensure_plugin_is_loaded`: an empty name fails without a message; a
   * cached definition is returned without opening the library again;
   * otherwise the library `InternalName + ".so"` is opened and initialised,
   * and on success its definition is cached under the internal name.
   * `load` is what opening and initialising the library would give.
   */
  function EnsurePluginIsLoaded(s: Store, t: Plugin2.PluginType, name: string, load: LoadOutcome): (r: Loading)
    requires Valid(s)
    ensures Valid(r.store)
    ensures r.store.(pluginDefinitions := s.pluginDefinitions, libraryLoads := s.libraryLoads) == s
    ensures name == "" ==> r == Loading(s, None, None)
    ensures name != "" && InternalName(t, name) in s.pluginDefinitions ==>
              r == Loading(s, Some(s.pluginDefinitions[InternalName(t, name)]), None)
    ensures name != "" && InternalName(t, name) !in s.pluginDefinitions ==>
              r.store.libraryLoads == s.libraryLoads + [InternalName(t, name) + ".so"] &&
              (load.Initialized? ==>
                 r.definition == Some(load.definition) && r.failure.None? &&
                 r.store.pluginDefinitions == s.pluginDefinitions[InternalName(t, name) := load.definition]) &&
              (!load.Initialized? ==>
                 r.definition.None? && r.failure == Some(LoadFailure(load)) &&
                 r.store.pluginDefinitions == s.pluginDefinitions)
    ensures r.definition.Some? ==>
              InternalName(t, name) in r.store.pluginDefinitions &&
              r.store.pluginDefinitions[InternalName(t, name)] == r.definition.value
    ensures s.pluginDefinitions.Keys <= r.store.pluginDefinitions.Keys
  {
    if name == "" then Loading(s, None, None)
    else
      var key := InternalName(t, name);
      if key in s.pluginDefinitions then Loading(s, Some(s.pluginDefinitions[key]), None)
      else
        var s1 := s.(libraryLoads := s.libraryLoads + [key + ".so"]);
        match load
        case Initialized(d) => Loading(s1.(pluginDefinitions := s.pluginDefinitions[key := d]), Some(d), None)
        case _ => Loading(s1, None, Some(LoadFailure(load)))
  }

  /**
   * A plugin that loaded once is not opened again: a second request returns
   * the same definition, whatever opening the library would now give, and
   * leaves the store as it was.
   */
  lemma {:induction false} LoadedPluginIsCached(s: Store, t: Plugin2.PluginType, name: string,
                                                first: LoadOutcome, second: LoadOutcome)
    requires Valid(s)
    requires EnsurePluginIsLoaded(s, t, name, first).definition.Some?
    ensures var r := EnsurePluginIsLoaded(s, t, name, first);
            EnsurePluginIsLoaded(r.store, t, name, second) == Loading(r.store, r.definition, None)
  {
    var r := EnsurePluginIsLoaded(s, t, name, first);
    assert name != "";
    assert InternalName(t, name) in r.store.pluginDefinitions;
  }

  // ---------------------------------------------------------------------
  // Deleting scene data
  // ---------------------------------------------------------------------

  /**
   * `delete_plugin_instance`: erases the name from the instances, the
   * states and the data types. When the instance keeps private data, the
   * clear-data function of the definition cached under its bare plugin name,
   * if there is one, is handed its state; otherwise an error is reported.
   * A name without an instance is reported and ignored.
   */
  function DeletePluginInstance(s: Store, name: string): (r: Store)
    requires Valid(s)
    ensures Valid(r)
    ensures name !in s.pluginInstances ==> r == s
    ensures name in s.pluginInstances ==>
              r.sceneDataTypes == s.sceneDataTypes - {name} &&
              r.pluginInstances == s.pluginInstances - {name} &&
              r.pluginState == s.pluginState - {name} &&
              r.dataReleased == s.dataReleased + ReleaseCalls(s.pluginInstances, s.pluginState, s.pluginDefinitions, {name})
    ensures r.(sceneDataTypes := s.sceneDataTypes, pluginInstances := s.pluginInstances,
               pluginState := s.pluginState, dataReleased := s.dataReleased) == s
  {
    if name !in s.pluginInstances then s
    else
      var inst := s.pluginInstances[name];
      var released := if s.pluginState[name].hasData && DefinitionKeyAsWritten(inst) in s.pluginDefinitions
                      then {(name, DefinitionKeyAsWritten(inst))} else {};
      PluginNamesRemove(s.sceneDataTypes, name);
      MeshesLiveRemove(s.sceneDataTypes, s.blenderMeshes, name);
      DefinitionsCachedRemove(s.pluginInstances, s.pluginDefinitions, name);
      s.(sceneDataTypes := s.sceneDataTypes - {name},
         pluginInstances := s.pluginInstances - {name},
         pluginState := s.pluginState - {name},
         dataReleased := s.dataReleased + released)
  }

  /**
   * `delete_plugin_instance` as intended: the clear-data function called is
   * that of the instance's own plugin, looked up under the key its
   * definition was cached under, so every instance that keeps private data
   * has it released.
   */
  function DeletePluginInstanceCorrected(s: Store, name: string): (r: Store)
    requires Valid(s)
    ensures Valid(r)
    ensures name !in s.pluginInstances ==> r == s
    ensures name in s.pluginInstances ==>
              r.sceneDataTypes == s.sceneDataTypes - {name} &&
              r.pluginInstances == s.pluginInstances - {name} &&
              r.pluginState == s.pluginState - {name}
    ensures name in s.pluginInstances && s.pluginState[name].hasData ==>
              r.dataReleased == s.dataReleased + {(name, DefinitionKey(s.pluginInstances[name]))}
    ensures name in s.pluginInstances && !s.pluginState[name].hasData ==> r.dataReleased == s.dataReleased
    ensures r.(sceneDataTypes := s.sceneDataTypes, pluginInstances := s.pluginInstances,
               pluginState := s.pluginState, dataReleased := s.dataReleased) == s
  {
    if name !in s.pluginInstances then s
    else
      var inst := s.pluginInstances[name];
      var released := if s.pluginState[name].hasData && DefinitionKey(inst) in s.pluginDefinitions
                      then {(name, DefinitionKey(inst))} else {};
      PluginNamesRemove(s.sceneDataTypes, name);
      MeshesLiveRemove(s.sceneDataTypes, s.blenderMeshes, name);
      DefinitionsCachedRemove(s.pluginInstances, s.pluginDefinitions, name);
      s.(sceneDataTypes := s.sceneDataTypes - {name},
         pluginInstances := s.pluginInstances - {name},
         pluginState := s.pluginState - {name},
         dataReleased := s.dataReleased + released)
  }

  /**
   * As written, deleting an instance never hands its state to its own
   * plugin's clear-data function, which the corrected deletion always does
   * when there is private data; apart from that call the two agree.
   */
  lemma {:induction false} DeleteAsWrittenNeverClearsOwnData(s: Store, name: string)
    requires Valid(s) && name in s.pluginInstances
    ensures var own := (name, DefinitionKey(s.pluginInstances[name]));
            own !in DeletePluginInstance(s, name).dataReleased - s.dataReleased &&
            (s.pluginState[name].hasData ==> own in DeletePluginInstanceCorrected(s, name).dataReleased)
    ensures DeletePluginInstance(s, name).(dataReleased := s.dataReleased) ==
            DeletePluginInstanceCorrected(s, name).(dataReleased := s.dataReleased)
  {
    var inst := s.pluginInstances[name];
    assert |DefinitionKey(inst)| > |DefinitionKeyAsWritten(inst)|;
  }

  /**
   * When no cached definition's key is an instance's bare plugin name, as
   * with one definition per plugin and no plugin named like another's
   * internal name, deleting instances as written calls no clear-data
   * function at all.
   */
  lemma ReleaseCallsWithoutClash(s: Store, names: set<string>)
    requires forall n :: n in s.pluginInstances ==> DefinitionKeyAsWritten(s.pluginInstances[n]) !in s.pluginDefinitions
    ensures ReleaseCalls(s.pluginInstances, s.pluginState, s.pluginDefinitions, names) == {}
    ensures DeleteScene(s, names).dataReleased == s.dataReleased
  {
  }

  /** `delete_blender_mesh` applies to a name registered as a Blender mesh. */
  predicate IsMesh(s: Store, name: string)
  {
    name in s.sceneDataTypes && s.sceneDataTypes[name] == SDT_BLENDER_MESH
  }

  /**
   * `delete_blender_mesh`: frees the mesh and erases its data type, but
   * leaves the freed mesh in the mesh map. A name that is not a Blender mesh
   * is reported and ignored.
   */
  function DeleteBlenderMesh(s: Store, name: string): (r: Store)
    requires Valid(s)
    ensures Valid(r)
    ensures !IsMesh(s, name) ==> r == s
    ensures IsMesh(s, name) ==>
              r.sceneDataTypes == s.sceneDataTypes - {name} &&
              r.blenderMeshes == FreeMeshes(s.blenderMeshes, {name}) &&
              name in r.blenderMeshes && r.blenderMeshes[name].freed
    ensures r.(sceneDataTypes := s.sceneDataTypes, blenderMeshes := s.blenderMeshes) == s
  {
    if name !in s.sceneDataTypes || s.sceneDataTypes[name] != SDT_BLENDER_MESH || name !in s.blenderMeshes then s
    else
      var r := s.(blenderMeshes := FreeMeshes(s.blenderMeshes, {name}),
                  sceneDataTypes := s.sceneDataTypes - {name});
      assert PluginNames(r.sceneDataTypes) == PluginNames(s.sceneDataTypes);
      r
  }

  /** `delete_object`: removes the object if there is one; nothing else changes. */
  function DeleteObject(s: Store, name: string): (r: Store)
    ensures name !in r.sceneObjects
    ensures forall n :: n != name && n in s.sceneObjects ==> n in r.sceneObjects && r.sceneObjects[n] == s.sceneObjects[n]
    ensures r.sceneObjects.Keys <= s.sceneObjects.Keys
    ensures r.(sceneObjects := s.sceneObjects) == s
  {
    s.(sceneObjects := s.sceneObjects - {name})
  }

  /**
   * The store once every name in `names` is deleted: the names leave the
   * data types, the instances and the states, the Blender meshes among them
   * are marked freed, and the instances among them that keep private data
   * have it released.
   */
  function DeleteScene(s: Store, names: set<string>): (r: Store)
  {
    s.(sceneDataTypes := s.sceneDataTypes - names,
       pluginInstances := s.pluginInstances - names,
       pluginState := s.pluginState - names,
       blenderMeshes := FreeMeshes(s.blenderMeshes, MeshNames(s.sceneDataTypes, names)),
       dataReleased := s.dataReleased + ReleaseCalls(s.pluginInstances, s.pluginState, s.pluginDefinitions, names))
  }

  lemma DeleteSceneValid(s: Store, names: set<string>)
    requires Valid(s)
    ensures Valid(DeleteScene(s, names))
  {
    var r := DeleteScene(s, names);
    assert PluginNames(r.sceneDataTypes) == PluginNames(s.sceneDataTypes) - names;
  }

  /**
   * `delete_scene_data`: deletes a plugin instance or a Blender mesh by its
   * registered type; an unknown name is reported and ignored. It is the
   * deletion of the one-name set.
   */
  function DeleteSceneData(s: Store, name: string): (r: Store)
    requires Valid(s)
    ensures Valid(r)
    ensures r == DeleteScene(s, {name})
  {
    if name !in s.sceneDataTypes then
      DeleteSceneDataUnknown(s, name);
      s
    else if s.sceneDataTypes[name] == SDT_PLUGIN then
      DeleteScenePlugin(s, name);
      DeletePluginInstance(s, name)
    else
      DeleteSceneDataMesh(s, name);
      var r := DeleteBlenderMesh(s, name);
      r.(sceneDataTypes := r.sceneDataTypes - {name})
  }

  lemma DeleteSceneDataUnknown(s: Store, name: string)
    requires Valid(s) && name !in s.sceneDataTypes
    ensures DeleteScene(s, {name}) == s
  {
    assert name !in PluginNames(s.sceneDataTypes);
    DeleteSceneUnknown(s, name);
  }

  lemma DeleteSceneDataMesh(s: Store, name: string)
    requires Valid(s) && IsMesh(s, name)
    ensures var r := DeleteBlenderMesh(s, name);
            Valid(r.(sceneDataTypes := r.sceneDataTypes - {name})) &&
            r.(sceneDataTypes := r.sceneDataTypes - {name}) == DeleteScene(s, {name})
  {
    assert name !in PluginNames(s.sceneDataTypes);
    DeleteSceneMesh(s, name);
    var r := DeleteBlenderMesh(s, name);
    assert r.sceneDataTypes - {name} == r.sceneDataTypes;
  }

  lemma DeleteSceneUnknown(s: Store, name: string)
    requires name !in s.sceneDataTypes && name !in s.pluginInstances && name !in s.pluginState
    ensures DeleteScene(s, {name}) == s
  {
    assert MeshNames(s.sceneDataTypes, {name}) == {};
    assert ReleaseCalls(s.pluginInstances, s.pluginState, s.pluginDefinitions, {name}) == {};
    assert FreeMeshes(s.blenderMeshes, {}) == s.blenderMeshes;
    assert s.sceneDataTypes - {name} == s.sceneDataTypes;
    assert s.pluginInstances - {name} == s.pluginInstances;
    assert s.pluginState - {name} == s.pluginState;
  }

  lemma DeleteScenePlugin(s: Store, name: string)
    requires Valid(s) && name in s.sceneDataTypes && s.sceneDataTypes[name] == SDT_PLUGIN
    ensures DeleteScene(s, {name}) == DeletePluginInstance(s, name)
  {
    assert MeshNames(s.sceneDataTypes, {name}) == {};
    assert FreeMeshes(s.blenderMeshes, {}) == s.blenderMeshes;
  }

  lemma DeleteSceneMesh(s: Store, name: string)
    requires IsMesh(s, name) && name !in s.pluginInstances && name !in s.pluginState
    ensures DeleteScene(s, {name}) ==
            s.(sceneDataTypes := s.sceneDataTypes - {name}, blenderMeshes := FreeMeshes(s.blenderMeshes, {name}))
  {
    assert MeshNames(s.sceneDataTypes, {name}) == {name};
    assert ReleaseCalls(s.pluginInstances, s.pluginState, s.pluginDefinitions, {name}) == {};
    assert s.pluginInstances - {name} == s.pluginInstances;
    assert s.pluginState - {name} == s.pluginState;
  }

  lemma FreeMeshesTwice(meshes: map<string, BlenderMesh>, a: set<string>, b: set<string>)
    ensures FreeMeshes(FreeMeshes(meshes, a), b) == FreeMeshes(meshes, a + b)
  {
  }

  lemma MeshNamesStep(types: map<string, SceneDataType>, done: set<string>, n: string)
    ensures MeshNames(types, done) + MeshNames(types - done, {n}) == MeshNames(types, done + {n})
  {
  }

  lemma ReleaseCallsStep(insts: map<string, PluginInstance>, states: map<string, PluginState>,
                         defs: map<string, PluginDefinition>, done: set<string>, n: string)
    ensures ReleaseCalls(insts, states, defs, done) + ReleaseCalls(insts - done, states - done, defs, {n}) ==
            ReleaseCalls(insts, states, defs, done + {n})
  {
  }

  lemma DeleteSceneNothing(s: Store)
    ensures DeleteScene(s, {}) == s
  {
    assert MeshNames(s.sceneDataTypes, {}) == {};
    assert ReleaseCalls(s.pluginInstances, s.pluginState, s.pluginDefinitions, {}) == {};
    assert FreeMeshes(s.blenderMeshes, {}) == s.blenderMeshes;
    assert s.sceneDataTypes - {} == s.sceneDataTypes;
    assert s.pluginInstances - {} == s.pluginInstances;
    assert s.pluginState - {} == s.pluginState;
  }

  lemma DeleteEachStep(s: Store, done: set<string>, n: string)
    requires Valid(s)
    ensures Valid(DeleteScene(s, done))
    ensures DeleteSceneData(DeleteScene(s, done), n) == DeleteScene(s, done + {n})
  {
    DeleteSceneValid(s, done);
    DeleteSceneStep(s, done, n);
  }

  /** Deleting names one at a time deletes the set of them. */
  lemma DeleteSceneStep(s: Store, done: set<string>, n: string)
    ensures DeleteScene(DeleteScene(s, done), {n}) == DeleteScene(s, done + {n})
  {
    var d := DeleteScene(s, done);
    FreeMeshesTwice(s.blenderMeshes, MeshNames(s.sceneDataTypes, done), MeshNames(d.sceneDataTypes, {n}));
    MeshNamesStep(s.sceneDataTypes, done, n);
    ReleaseCallsStep(s.pluginInstances, s.pluginState, s.pluginDefinitions, done, n);
    assert d.sceneDataTypes - {n} == s.sceneDataTypes - (done + {n});
    assert d.pluginInstances - {n} == s.pluginInstances - (done + {n});
    assert d.pluginState - {n} == s.pluginState - (done + {n});
  }

  /**
   * Deletes every name in `names` with `delete_scene_data`, in no particular
   * order; this is the loop `clear_scene` runs over the names it collected.
   */
  method DeleteEach(s: Store, names: set<string>) returns (r: Store)
    requires Valid(s)
    ensures Valid(r)
    ensures r == DeleteScene(s, names)
  {
    r := s;
    var left := names;
    ghost var done: set<string> := {};
    DeleteSceneNothing(s);
    while left != {}
      invariant left <= names && done == names - left
      invariant r == DeleteScene(s, done)
      decreases |left|
    {
      var n :| n in left;
      DeleteEachStep(s, done, n);
      r := DeleteSceneData(r, n);
      done := done + {n};
      left := left - {n};
    }
    DeleteSceneValid(s, names);
  }


  /**
   * `delete_all_scene_data`: every registered name is deleted, and the type
   * map is left empty. The source erases entries of the map it is iterating;
   * the model deletes each name once, as intended.
   */
  method DeleteAllSceneData(s: Store) returns (r: Store)
    requires Valid(s)
    ensures Valid(r)
    ensures r.sceneDataTypes == map[] && r.pluginInstances == map[] && r.pluginState == map[]
    ensures r.blenderMeshes == FreeMeshes(s.blenderMeshes, MeshNames(s.sceneDataTypes, s.sceneDataTypes.Keys))
    ensures r.dataReleased == s.dataReleased + ReleaseCalls(s.pluginInstances, s.pluginState, s.pluginDefinitions, s.pluginState.Keys)
    ensures r.(sceneDataTypes := s.sceneDataTypes, pluginInstances := s.pluginInstances,
               pluginState := s.pluginState, blenderMeshes := s.blenderMeshes,
               dataReleased := s.dataReleased) == s
  {
    DeleteEverything(s);
    r := DeleteEach(s, s.sceneDataTypes.Keys);
    r := r.(sceneDataTypes := map[]);
  }

  lemma DeleteEverything(s: Store)
    requires s.pluginInstances.Keys == PluginNames(s.sceneDataTypes)
    requires s.pluginState.Keys == PluginNames(s.sceneDataTypes)
    ensures var r := DeleteScene(s, s.sceneDataTypes.Keys);
            r.sceneDataTypes == map[] && r.pluginInstances == map[] && r.pluginState == map[] &&
            r.dataReleased == s.dataReleased + ReleaseCalls(s.pluginInstances, s.pluginState, s.pluginDefinitions, s.pluginState.Keys)
  {
    var names := s.sceneDataTypes.Keys;
    assert ReleaseCalls(s.pluginInstances, s.pluginState, s.pluginDefinitions, names) ==
           ReleaseCalls(s.pluginInstances, s.pluginState, s.pluginDefinitions, s.pluginState.Keys);
    assert (s.pluginInstances - names).Keys == {};
    assert (s.pluginState - names).Keys == {};
    assert (s.sceneDataTypes - names).Keys == {};
  }

  // ---------------------------------------------------------------------
  // Clearing the scene
  // ---------------------------------------------------------------------

  /** The `clear_scene` argument that keeps plugin instances; any other value clears everything. */
  const KEEP_PLUGIN_INSTANCES: string := "keep_plugin_instances"

  /** The names `clear_scene` collects when it keeps plugin instances: all other scene data. */
  function NonPluginNames(types: map<string, SceneDataType>): set<string>
  {
    set n | n in types && types[n] != SDT_PLUGIN
  }

  lemma MinusDisjoint<V>(m: map<string, V>, names: set<string>)
    requires forall n :: n in names ==> n !in m
    ensures m - names == m
  {
  }

  lemma DeleteNonPlugins(s: Store)
    requires s.pluginInstances.Keys == PluginNames(s.sceneDataTypes)
    requires s.pluginState.Keys == PluginNames(s.sceneDataTypes)
    ensures var r := DeleteScene(s, NonPluginNames(s.sceneDataTypes));
            r.pluginInstances == s.pluginInstances && r.pluginState == s.pluginState &&
            r.sceneDataTypes.Keys == PluginNames(s.sceneDataTypes) && r.dataReleased == s.dataReleased &&
            r.blenderMeshes == FreeMeshes(s.blenderMeshes, MeshNames(s.sceneDataTypes, s.sceneDataTypes.Keys))
  {
    var names := NonPluginNames(s.sceneDataTypes);
    MinusDisjoint(s.pluginInstances, names);
    MinusDisjoint(s.pluginState, names);
    assert ReleaseCalls(s.pluginInstances, s.pluginState, s.pluginDefinitions, names) == {};
    MeshNamesOfNonPlugins(s.sceneDataTypes);
    assert (s.sceneDataTypes - names).Keys == PluginNames(s.sceneDataTypes);
  }

  lemma MeshNamesOfNonPlugins(types: map<string, SceneDataType>)
    ensures MeshNames(types, NonPluginNames(types)) == MeshNames(types, types.Keys)
  {
  }

  /**
   * `clear_scene`: the world loses its instances, its lights except the
   * ambient one, and every scene object and material. Scene data is deleted
   * too: all of it, or, for `keep_plugin_instances`, all but the plugin
   * instances, which stay exactly as they were.
   */
  method ClearScene(s: Store, kind: string) returns (r: Store)
    requires Valid(s)
    ensures Valid(r)
    ensures r.instances == [] && r.lights == [s.ambientLight]
    ensures r.sceneObjects == map[] && r.sceneMaterials == map[]
    ensures kind == KEEP_PLUGIN_INSTANCES ==>
              r.pluginInstances == s.pluginInstances && r.pluginState == s.pluginState &&
              r.sceneDataTypes.Keys == PluginNames(s.sceneDataTypes) && r.dataReleased == s.dataReleased
    ensures kind != KEEP_PLUGIN_INSTANCES ==>
              r.sceneDataTypes == map[] && r.pluginInstances == map[] && r.pluginState == map[] &&
              r.dataReleased == s.dataReleased + ReleaseCalls(s.pluginInstances, s.pluginState, s.pluginDefinitions, s.pluginState.Keys)
    ensures r.blenderMeshes == FreeMeshes(s.blenderMeshes, MeshNames(s.sceneDataTypes, s.sceneDataTypes.Keys))
    ensures r.pluginDefinitions == s.pluginDefinitions && r.libraryLoads == s.libraryLoads
    ensures r.ambientLight == s.ambientLight && r.currentRendererType == s.currentRendererType
  {
    r := s.(instances := [], lights := [s.ambientLight], sceneObjects := map[]);
    if kind == KEEP_PLUGIN_INSTANCES {
      DeleteNonPlugins(r);
      r := DeleteEach(r, NonPluginNames(r.sceneDataTypes));
    } else {
      r := DeleteAllSceneData(r);
    }
    r := r.(sceneMaterials := map[]);
  }

  // ---------------------------------------------------------------------
  // Scene objects and the renderer type
  // ---------------------------------------------------------------------

  /** The store after a lookup, and the object found, if any. */
  datatype Found = Found(store: Store, found: Option<SceneObject>)

  /**
   * `find_scene_object`: an object of the name is returned when its type
   * matches, or whatever its type when mismatches are not to be deleted; a
   * mismatching object is otherwise deleted and nothing is returned.
   */
  function FindSceneObject(s: Store, name: string, t: SceneObjectType, deleteMismatch: bool): (r: Found)
    ensures r.found.Some? ==> name in s.sceneObjects && r.found.value == s.sceneObjects[name] && r.store == s
    ensures r.found.Some? && deleteMismatch ==> r.found.value.objectType == t
    ensures name in s.sceneObjects && (s.sceneObjects[name].objectType == t || !deleteMismatch) ==> r.found.Some?
    ensures r.found.None? ==> r.store == DeleteObject(s, name)
  {
    if name !in s.sceneObjects then
      assert s.sceneObjects - {name} == s.sceneObjects;
      Found(s, None)
    else if s.sceneObjects[name].objectType != t && deleteMismatch then Found(DeleteObject(s, name), None)
    else Found(s, Some(s.sceneObjects[name]))
  }

  /**
   * `update_renderer_type`: a change of renderer type drops every material,
   * which belongs to a renderer; the same type changes nothing.
   */
  function UpdateRendererType(s: Store, t: string): (r: Store)
    ensures r.currentRendererType == t
    ensures t == s.currentRendererType ==> r == s
    ensures t != s.currentRendererType ==> r.sceneMaterials == map[]
    ensures r.(sceneMaterials := s.sceneMaterials, currentRendererType := s.currentRendererType) == s
    ensures Valid(s) ==> Valid(r)
  {
    if t == s.currentRendererType then s
    else s.(sceneMaterials := map[], currentRendererType := t)
  }

  // ---------------------------------------------------------------------
  // Bounds
  // ---------------------------------------------------------------------

  /** The `QueryBoundResult` reply, and the serialised bound sent after it on success. */
  datatype BoundReply = BoundReply(success: bool, message: string, resultSize: nat, payload: seq<byte>)

  /**
   * `handle_query_bound`: the serialised bound of a plugin instance, or a
   * failure naming the missing state, or saying that no bound was set.
   */
  function QueryBound(s: Store, name: string): (r: BoundReply)
    requires BoundsEncodable(s.pluginState)
    ensures r.success <==> name in s.pluginState && s.pluginState[name].bound.Some?
    ensures r.success ==> r.message == "" && r.resultSize == |r.payload| &&
                          r.payload == BoundingMesh.SerializedBytes(s.pluginState[name].bound.value)
    ensures name !in s.pluginState ==> r == BoundReply(false, "No plugin state for id '" + name + "'", 0, [])
    ensures name in s.pluginState && s.pluginState[name].bound.None? ==>
              r == BoundReply(false, "No bound specified", 0, [])
  {
    if name !in s.pluginState then BoundReply(false, "No plugin state for id '" + name + "'", 0, [])
    else match s.pluginState[name].bound
      case None => BoundReply(false, "No bound specified", 0, [])
      case Some(m) =>
        var bytes := BoundingMesh.SerializedBytes(m);
        BoundReply(true, "", |bytes|, bytes)
  }

  /**
   * A client that reads the bound's words back with the corrected reader
   * gets the plugin's bound, when its two loop arrays agree in length.
   */
  lemma {:induction false} QueryBoundRoundTrip(s: Store, name: string)
    requires BoundsEncodable(s.pluginState) && QueryBound(s, name).success
    requires |s.pluginState[name].bound.value.loopTotal| == |s.pluginState[name].bound.value.loopStart|
    ensures var r := QueryBound(s, name);
            |r.payload| % 4 == 0 &&
            var ws := ReadWordsLE(r.payload, |r.payload| / 4);
            |ws| >= 4 && BoundingMesh.Readable(ws, 4 + ws[0] as int) &&
            BoundingMesh.Deserialize(ws) == s.pluginState[name].bound.value
  {
    var m := s.pluginState[name].bound.value;
    var layout := BoundingMesh.Layout(m);
    BoundingMesh.DeserializeOfLayout(m);
    ReadWordsOfWords(layout, []);
    assert WordsLE(layout) + [] == WordsLE(layout);
  }

  // ---------------------------------------------------------------------
  // Plugin instances
  // ---------------------------------------------------------------------

  /**
   * An `UpdatePluginInstance` message as the server decodes it: the data
   * name, the plugin type (`PT_UNKNOWN` for a type the server does not know),
   * the plugin name, the parameters as text and as parsed JSON, and the
   * custom properties as text.
   */
  datatype PluginUpdate = PluginUpdate(
    name: string, pluginType: Plugin2.PluginType, pluginName: string,
    parametersText: string, parameters: Json.Value, propertiesText: string)

  /**
   * What a plugin's generate function did: the success flag and message it
   * left in the result, and what it put in the state.
   */
  datatype Generation = Generation(
    success: bool, message: string, geometry: bool, volume: bool, hasData: bool,
    bound: Option<BoundingMesh.Mesh>)

  /** The `GenerateFunctionResult` reply. */
  datatype GenerateFunctionResult = GenerateFunctionResult(success: bool, message: string)

  /** The store after an update, the reply sent (if any) and the handler's return value. */
  datatype Update = Update(store: Store, reply: Option<GenerateFunctionResult>, ok: bool)

  /** The reply the handler starts from: success, with no message. */
  const ALL_WELL: GenerateFunctionResult := GenerateFunctionResult(true, "")

  /**
   * The instance registered under the update's name can be reused: it was
   * generated by the same plugin, from parameters and custom properties with
   * the same digests, and either does not depend on the renderer type or was
   * generated for the current one. `digest` stands for the SHA-1 hex digest.
   */
  predicate UpToDate(s: Store, u: PluginUpdate, digest: string -> string)
  {
    u.name in s.sceneDataTypes && s.sceneDataTypes[u.name] == SDT_PLUGIN &&
    u.name in s.pluginInstances && u.name in s.pluginState &&
    var inst := s.pluginInstances[u.name];
    var st := s.pluginState[u.name];
    inst.pluginType == u.pluginType && inst.pluginName == u.pluginName &&
    inst.parametersHash == digest(u.parametersText) && inst.propertiesHash == digest(u.propertiesText) &&
    !(st.usesRendererType && st.renderer != s.currentRendererType)
  }

  lemma PluginNamesAdd(types: map<string, SceneDataType>, name: string)
    ensures PluginNames(types[name := SDT_PLUGIN]) == PluginNames(types) + {name}
  {
  }

  lemma RegisterValid(s: Store, name: string, inst: PluginInstance, st: PluginState)
    requires Valid(s)
    requires DefinitionKey(inst) in s.pluginDefinitions
    requires st.bound.Some? ==> BoundingMesh.Encodable(st.bound.value)
    ensures Valid(s.(pluginInstances := s.pluginInstances[name := inst], pluginState := s.pluginState[name := st],
                     sceneDataTypes := s.sceneDataTypes[name := SDT_PLUGIN]))
  {
    PluginNamesAdd(s.sceneDataTypes, name);
    assert s.pluginInstances[name := inst].Keys == s.pluginInstances.Keys + {name};
    assert s.pluginState[name := st].Keys == s.pluginState.Keys + {name};
    MeshesLiveAdd(s.sceneDataTypes, s.blenderMeshes, name);
    DefinitionsCachedAdd(s.pluginInstances, s.pluginDefinitions, name, inst);
    BoundsEncodableAdd(s.pluginState, name, st);
  }

  lemma MeshesLiveAdd(types: map<string, SceneDataType>, meshes: map<string, BlenderMesh>, name: string)
    requires MeshesLive(types, meshes)
    ensures MeshesLive(types[name := SDT_PLUGIN], meshes)
  {
  }

  lemma DefinitionsCachedAdd(insts: map<string, PluginInstance>, defs: map<string, PluginDefinition>,
                             name: string, inst: PluginInstance)
    requires DefinitionsCached(insts, defs) && DefinitionKey(inst) in defs
    ensures DefinitionsCached(insts[name := inst], defs)
  {
  }

  lemma BoundsEncodableAdd(states: map<string, PluginState>, name: string, st: PluginState)
    requires BoundsEncodable(states) && (st.bound.Some? ==> BoundingMesh.Encodable(st.bound.value))
    ensures BoundsEncodable(states[name := st])
  {
  }

  /**
   * Registers a generated instance under the update's name, in the
   * instances, the states and the data types. The state records the current
   * renderer type, the parameters and what the generate function set.
   */
  function Register(s: Store, u: PluginUpdate, digest: string -> string, def: PluginDefinition, gen: Generation): (r: Store)
    requires Valid(s) && u.name !in s.pluginInstances
    requires InternalName(u.pluginType, u.pluginName) in s.pluginDefinitions
    requires gen.bound.Some? ==> BoundingMesh.Encodable(gen.bound.value)
    ensures Valid(r) && UpToDate(r, u, digest)
    ensures r.pluginState[u.name] ==
            PluginState(s.currentRendererType, def.usesRendererType, u.parameters,
                        gen.geometry, gen.volume, gen.hasData, gen.bound)
    ensures r.(pluginInstances := s.pluginInstances, pluginState := s.pluginState,
               sceneDataTypes := s.sceneDataTypes) == s
  {
    var inst := PluginInstance(u.pluginType, u.pluginName, digest(u.parametersText), digest(u.propertiesText));
    var st := PluginState(s.currentRendererType, def.usesRendererType, u.parameters,
                          gen.geometry, gen.volume, gen.hasData, gen.bound);
    RegisterValid(s, u.name, inst, st);
    s.(pluginInstances := s.pluginInstances[u.name := inst],
       pluginState := s.pluginState[u.name := st],
       sceneDataTypes := s.sceneDataTypes[u.name := SDT_PLUGIN])
  }

  /**
   * The part of `handle_update_plugin_instance` after any stale instance is
   * gone: load the plugin, check it has a generate function, check the
   * parameters, generate, check the plugin set what its type requires, and
   * register. Each failure sends the result as it stands at that point: a
   * load failure clears its success flag, but an empty plugin name, a
   * missing generate function, failing parameters or a missing geometry or
   * volume leave it set.
   */
  function Generate(s: Store, u: PluginUpdate, digest: string -> string, load: LoadOutcome, gen: Generation): (r: Update)
    requires Valid(s) && u.name !in s.pluginInstances
    requires gen.bound.Some? ==> BoundingMesh.Encodable(gen.bound.value)
    ensures Valid(r.store) && r.reply.Some?
    ensures r.ok <==> UpToDate(r.store, u, digest)
    ensures r.ok ==> r.reply == Some(GenerateFunctionResult(true, gen.message)) && gen.success &&
                     r.store.pluginState[u.name].parameters == u.parameters &&
                     r.store.pluginState[u.name].renderer == s.currentRendererType
    ensures !r.ok ==> r.store == EnsurePluginIsLoaded(s, u.pluginType, u.pluginName, load).store
    ensures !r.reply.value.success ==> !r.ok
    ensures SameWorld(r.store, s) && r.store.blenderMeshes == s.blenderMeshes
  {
    var ld := EnsurePluginIsLoaded(s, u.pluginType, u.pluginName, load);
    assert u.name !in ld.store.pluginInstances;
    match ld.definition
    case None =>
      Update(ld.store, Some(if ld.failure.Some? then GenerateFunctionResult(false, ld.failure.value) else ALL_WELL), false)
    case Some(def) =>
      GenerateWith(ld.store, u, digest, def, gen)
  }

  /**
   * The part of `Generate` once the plugin's definition `def` is loaded:
   * the store is left as it is unless the new instance is registered, and
   * that happens exactly when the generate function exists, the
   * parameters pass, generation succeeds and sets what the type requires.
   */
  function GenerateWith(p: Store, u: PluginUpdate, digest: string -> string, def: PluginDefinition, gen: Generation): (r: Update)
    requires Valid(p) && u.name !in p.pluginInstances
    requires InternalName(u.pluginType, u.pluginName) in p.pluginDefinitions
    requires gen.bound.Some? ==> BoundingMesh.Encodable(gen.bound.value)
    ensures Valid(r.store) && r.reply.Some?
    ensures r.ok <==> UpToDate(r.store, u, digest)
    ensures r.ok <==>
              def.hasGenerate && Failures(def.parameters, u.parameters) == [] && gen.success &&
              !(u.pluginType == Plugin2.PT_GEOMETRY && !gen.geometry) && !(u.pluginType == Plugin2.PT_VOLUME && !gen.volume)
    ensures r.ok ==> r.reply == Some(GenerateFunctionResult(true, gen.message)) &&
                     r.store.pluginState[u.name].parameters == u.parameters &&
                     r.store.pluginState[u.name].renderer == p.currentRendererType
    ensures !r.ok ==> r.store == p
    ensures !r.reply.value.success ==> !r.ok
    ensures SameWorld(r.store, p) && r.store.blenderMeshes == p.blenderMeshes
  {
    assert !UpToDate(p, u, digest);
    if !def.hasGenerate then
      Update(p, Some(GenerateFunctionResult(true, "Plugin generate_function is NULL!")), false)
    else if Failures(def.parameters, u.parameters) != [] then
      Update(p, Some(ALL_WELL), false)
    else if !gen.success then
      Update(p, Some(GenerateFunctionResult(false, gen.message)), false)
    else if (u.pluginType == Plugin2.PT_GEOMETRY && !gen.geometry) || (u.pluginType == Plugin2.PT_VOLUME && !gen.volume) then
      Update(p, Some(GenerateFunctionResult(true, gen.message)), false)
    else
      Update(Register(p, u, digest, def, gen), Some(GenerateFunctionResult(true, gen.message)), true)
  }

  /**
   * `handle_update_plugin_instance` once the message is decoded. An unknown
   * plugin type is refused without a reply. An up-to-date instance is
   * reused: success is reported and nothing is loaded or generated.
   * Otherwise an instance of that name is deleted and the plugin generates
   * a new one. `load` and `gen` stand for what the plugin library does.
   */
  function UpdatePluginInstance(s: Store, u: PluginUpdate, digest: string -> string,
                                load: LoadOutcome, gen: Generation): (r: Update)
    requires Valid(s)
    requires gen.bound.Some? ==> BoundingMesh.Encodable(gen.bound.value)
    ensures Valid(r.store)
    ensures u.pluginType == Plugin2.PT_UNKNOWN ==> r == Update(s, None, false)
    ensures u.pluginType != Plugin2.PT_UNKNOWN ==> r.reply.Some?
    ensures u.pluginType != Plugin2.PT_UNKNOWN && UpToDate(s, u, digest) ==> r == Update(s, Some(ALL_WELL), true)
    ensures r.ok <==> u.pluginType != Plugin2.PT_UNKNOWN && UpToDate(r.store, u, digest)
    ensures r.ok && !UpToDate(s, u, digest) ==>
              gen.success && r.reply == Some(GenerateFunctionResult(true, gen.message)) &&
              r.store.pluginState[u.name].parameters == u.parameters
    ensures !r.ok && u.pluginType != Plugin2.PT_UNKNOWN ==> u.name !in r.store.pluginInstances
    ensures r.reply.Some? && !r.reply.value.success ==> !r.ok
    ensures SameWorld(r.store, s) && r.store.blenderMeshes == s.blenderMeshes
  {
    if u.pluginType == Plugin2.PT_UNKNOWN then Update(s, None, false)
    else if UpToDate(s, u, digest) then Update(s, Some(ALL_WELL), true)
    else
      var s1 := if u.name in s.sceneDataTypes && s.sceneDataTypes[u.name] == SDT_PLUGIN
                then DeletePluginInstance(s, u.name) else s;
      assert u.name !in s1.pluginInstances;
      Generate(s1, u, digest, load, gen)
  }

  /**
   * An update that succeeded leaves an instance that the same update,
   * sent again, reuses: success is reported and the store does not change,
   * whatever loading or generating would now do.
   */
  lemma {:induction false} RepeatedUpdateIsReused(s: Store, u: PluginUpdate, digest: string -> string,
                                                  load1: LoadOutcome, gen1: Generation,
                                                  load2: LoadOutcome, gen2: Generation)
    requires Valid(s)
    requires gen1.bound.Some? ==> BoundingMesh.Encodable(gen1.bound.value)
    requires gen2.bound.Some? ==> BoundingMesh.Encodable(gen2.bound.value)
    requires UpdatePluginInstance(s, u, digest, load1, gen1).ok
    ensures var r := UpdatePluginInstance(s, u, digest, load1, gen1);
            UpdatePluginInstance(r.store, u, digest, load2, gen2) == Update(r.store, Some(ALL_WELL), true)
  {
    var r := UpdatePluginInstance(s, u, digest, load1, gen1);
    assert UpToDate(r.store, u, digest);
  }

  /**
   * Changing the renderer type makes an instance that depends on it stale,
   * so the next identical update generates it again.
   */
  lemma {:induction false} RendererChangeMakesStale(s: Store, u: PluginUpdate, digest: string -> string, t: string)
    requires UpToDate(s, u, digest) && s.pluginState[u.name].usesRendererType && t != s.currentRendererType
    ensures !UpToDate(UpdateRendererType(s, t), u, digest)
  {
    var r := UpdateRendererType(s, t);
    assert r.pluginState == s.pluginState;
    assert s.pluginState[u.name].renderer == s.currentRendererType;
  }

  // ---------------------------------------------------------------------
  // Blender meshes
  // ---------------------------------------------------------------------

  /** A `MeshData` message as the server decodes it: the counts and the two flags it tests. */
  datatype MeshHeader = MeshHeader(numVertices: u32, numTriangles: u32, normals: bool, vertexColors: bool)

  /**
   * The byte count of `count * perItem` four-byte values: the product of
   * two 32-bit unsigned values wraps before it is widened to a size.
   */
  function ArrayBytes(count: u32, perItem: nat): (n: nat)
    ensures n % 4 == 0 && n < 4 * U32_LIMIT
  {
    ((count as int * perItem) % U32_LIMIT) * 4
  }

  /** The entry of a new mesh; its counts are set as soon as the header arrives. */
  const NEW_MESH: BlenderMesh := BlenderMesh(0, 0, NEW_GEOMETRY, false)

  /** A mesh that is updated loses its normals and colours until they are sent again. */
  function Stripped(m: BlenderMesh): (r: BlenderMesh)
    ensures r.geometry.normals.None? && r.geometry.colors.None?
    ensures r.geometry.positions == m.geometry.positions && r.geometry.indices == m.geometry.indices
    ensures r.(geometry := m.geometry) == m
  {
    m.(geometry := m.geometry.(normals := None, colors := None))
  }

  /**
   * The first part of `handle_update_blender_mesh_data`: an existing mesh
   * is kept, stripped of normals and colours; other data of that name is
   * deleted and a new mesh is created, as is one for an unseen name.
   */
  function PrepareMesh(s: Store, name: string): (r: Store)
    requires Valid(s)
    ensures Valid(r) && IsMesh(r, name) && name in r.blenderMeshes && !r.blenderMeshes[name].freed
    ensures IsMesh(s, name) ==> r == s.(blenderMeshes := s.blenderMeshes[name := Stripped(s.blenderMeshes[name])])
    ensures !IsMesh(s, name) ==>
              r.blenderMeshes[name] == NEW_MESH &&
              r.pluginInstances == s.pluginInstances - {name} && r.pluginState == s.pluginState - {name} &&
              r.dataReleased == s.dataReleased + ReleaseCalls(s.pluginInstances, s.pluginState, s.pluginDefinitions, {name})
    ensures SameWorld(r, s) && r.pluginDefinitions == s.pluginDefinitions && r.libraryLoads == s.libraryLoads
  {
    if IsMesh(s, name) then
      assert PluginNames(s.sceneDataTypes) == PluginNames(s.sceneDataTypes);
      s.(blenderMeshes := s.blenderMeshes[name := Stripped(s.blenderMeshes[name])])
    else
      var d := DeleteSceneData(s, name);
      AddMeshValid(d, name);
      d.(blenderMeshes := d.blenderMeshes[name := NEW_MESH], sceneDataTypes := d.sceneDataTypes[name := SDT_BLENDER_MESH])
  }

  lemma AddMeshValid(s: Store, name: string)
    requires Valid(s) && name !in s.sceneDataTypes
    ensures Valid(s.(blenderMeshes := s.blenderMeshes[name := NEW_MESH],
                     sceneDataTypes := s.sceneDataTypes[name := SDT_BLENDER_MESH]))
  {
    assert PluginNames(s.sceneDataTypes[name := SDT_BLENDER_MESH]) == PluginNames(s.sceneDataTypes);
  }

  /** The arrays of a mesh upload, as the server stores them, are sized by its header. */
  predicate SizedBy(g: Geometry, h: MeshHeader)
  {
    g.positions.Some? && |g.positions.value| == ArrayBytes(h.numVertices, 3) &&
    (g.normals.Some? <==> h.normals) && (g.normals.Some? ==> |g.normals.value| == ArrayBytes(h.numVertices, 3)) &&
    (g.colors.Some? <==> h.vertexColors) && (g.colors.Some? ==> |g.colors.value| == ArrayBytes(h.numVertices, 4)) &&
    g.indices.Some? && |g.indices.value| == ArrayBytes(h.numTriangles, 3)
  }

  /** The bytes of a geometry's arrays in the order they are sent: positions, normals, colours, indices. */
  function Wire(g: Geometry): seq<byte>
  {
    (if g.positions.Some? then g.positions.value else []) +
    (if g.normals.Some? then g.normals.value else []) +
    (if g.colors.Some? then g.colors.value else []) +
    (if g.indices.Some? then g.indices.value else [])
  }

  /** Present one array of a mesh: absent unless `wanted`, otherwise `bytes`. */
  function OptionalArray(wanted: bool, bytes: seq<byte>): Option<seq<byte>>
  {
    if wanted then Some(bytes) else None
  }

  /** One raw array of `n` bytes when `wanted`; nothing is read otherwise. */
  method ReceiveOptionalArray(sock: Socket, wanted: bool, n: nat) returns (r: Option<seq<byte>>)
    modifies sock
    ensures r.Some? ==> |r.value| == (if wanted then n else 0) && old(sock.inbox.data) == r.value + sock.inbox.data
    ensures |sock.inbox.data| <= |old(sock.inbox.data)| && Budget(sock.inbox) <= Budget(old(sock.inbox))
    ensures sock.outbox == old(sock.outbox)
  {
    if !wanted {
      return Some([]);
    }
    r := ServerIO.ReceiveArray(sock, n);
    if r.Some? {
      assert old(sock.inbox.data) == old(sock.inbox.data)[..n] + old(sock.inbox.data)[n..];
    }
  }

  /**
   * The per-vertex arrays of a mesh upload, received in order: positions,
   * normals if flagged, colours if flagged. `None` as soon as one
   * `recvall` fails.
   */
  method ReceiveVertexArrays(sock: Socket, h: MeshHeader) returns (arrays: Option<(seq<byte>, seq<byte>, seq<byte>)>)
    modifies sock
    ensures arrays.Some? ==>
              var (vertices, normals, colors) := arrays.value;
              |vertices| == ArrayBytes(h.numVertices, 3) &&
              |normals| == (if h.normals then ArrayBytes(h.numVertices, 3) else 0) &&
              |colors| == (if h.vertexColors then ArrayBytes(h.numVertices, 4) else 0) &&
              old(sock.inbox.data) == vertices + normals + colors + sock.inbox.data
    ensures |sock.inbox.data| <= |old(sock.inbox.data)| && Budget(sock.inbox) <= Budget(old(sock.inbox))
    ensures sock.outbox == old(sock.outbox)
  {
    var vertices := ReceiveOptionalArray(sock, true, ArrayBytes(h.numVertices, 3));
    if vertices.None? {
      return None;
    }
    var normals := ReceiveOptionalArray(sock, h.normals, ArrayBytes(h.numVertices, 3));
    if normals.None? {
      return None;
    }
    assert old(sock.inbox.data) == vertices.value + normals.value + sock.inbox.data;
    var colors := ReceiveOptionalArray(sock, h.vertexColors, ArrayBytes(h.numVertices, 4));
    if colors.None? {
      return None;
    }
    arrays := Some((vertices.value, normals.value, colors.value));
  }

  /**
   * The raw arrays of a mesh upload, received in order: vertex positions,
   * normals if flagged, colours if flagged, triangle indices. `None` as soon
   * as one `recvall` fails.
   */
  method ReceiveMeshArrays(sock: Socket, h: MeshHeader) returns (g: Option<Geometry>)
    modifies sock
    ensures g.Some? ==> SizedBy(g.value, h) && old(sock.inbox.data) == Wire(g.value) + sock.inbox.data
    ensures |sock.inbox.data| <= |old(sock.inbox.data)| && Budget(sock.inbox) <= Budget(old(sock.inbox))
    ensures sock.outbox == old(sock.outbox)
  {
    var arrays := ReceiveVertexArrays(sock, h);
    if arrays.None? {
      return None;
    }
    var (vertices, normals, colors) := arrays.value;
    var triangles := ReceiveOptionalArray(sock, true, ArrayBytes(h.numTriangles, 3));
    if triangles.None? {
      return None;
    }
    g := Some(Geometry(Some(vertices), OptionalArray(h.normals, normals),
                       OptionalArray(h.vertexColors, colors), Some(triangles.value)));
    assert Wire(g.value) == vertices + normals + colors + triangles.value;
  }

  /**
   * The socket half of `handle_update_blender_mesh_data`: receives the
   * `MeshData` header, then, when it announces vertices and triangles, the
   * arrays. `header` is the decoded header whenever it arrived; `g` is the
   * geometry only when everything arrived, and it is sized by the header.
   */
  method ReceiveMeshUpload(sock: Socket, decode: seq<byte> -> Option<MeshHeader>)
    returns (header: Option<MeshHeader>, g: Option<Geometry>)
    modifies sock
    ensures g.Some? ==>
              header.Some? && header.value.numVertices != 0 && header.value.numTriangles != 0 &&
              SizedBy(g.value, header.value) &&
              exists payload :: decode(payload) == header &&
                ParseFrame(old(sock.inbox.data)) == Some(Split(payload, Wire(g.value) + sock.inbox.data))
    ensures sock.outbox == old(sock.outbox)
  {
    var payload := ServerIO.ReceiveProtobuf(sock);
    if payload.None? {
      return None, None;
    }
    header := decode(payload.value);
    if header.None? || header.value.numVertices == 0 || header.value.numTriangles == 0 {
      return header, None;
    }
    g := ReceiveMeshArrays(sock, header.value);
    assert decode(payload.value) == header;
  }

  /**
   * The store half of `handle_update_blender_mesh_data`: the counts of a
   * header that arrived are recorded, and the geometry is replaced only when
   * all arrays arrived.
   */
  function ApplyMeshUpload(p: Store, name: string, header: Option<MeshHeader>, g: Option<Geometry>): (r: Store)
    requires Valid(p) && IsMesh(p, name) && name in p.blenderMeshes && !p.blenderMeshes[name].freed
    requires g.Some? ==> header.Some?
    ensures Valid(r) && IsMesh(r, name) && name in r.blenderMeshes
    ensures r == p.(blenderMeshes := p.blenderMeshes[name := r.blenderMeshes[name]])
    ensures g.None? ==> r.blenderMeshes[name].geometry == p.blenderMeshes[name].geometry
    ensures g.Some? ==> r.blenderMeshes[name].geometry == g.value
    ensures header.Some? ==> r.blenderMeshes[name].numVertices == header.value.numVertices &&
                             r.blenderMeshes[name].numTriangles == header.value.numTriangles
  {
    var m := p.blenderMeshes[name];
    var counted := if header.None? then m
                   else m.(numVertices := header.value.numVertices, numTriangles := header.value.numTriangles);
    var m' := if g.None? then counted else counted.(geometry := g.value);
    MeshUpdateValid(p, name, m');
    p.(blenderMeshes := p.blenderMeshes[name := m'])
  }

  /** Replacing a live mesh by another live mesh keeps the store valid. */
  lemma MeshUpdateValid(p: Store, name: string, m: BlenderMesh)
    requires Valid(p) && !m.freed
    ensures Valid(p.(blenderMeshes := p.blenderMeshes[name := m]))
  {
  }

  /**
   * `handle_update_blender_mesh_data`: prepares the mesh entry, receives the
   * `MeshData` header and records its counts, refuses a mesh without
   * vertices or triangles, then receives the arrays and only then sets them
   * all on the geometry. Any failure returns false with the store as it
   * stands: the entry is created and the counts are recorded, but the
   * geometry is untouched.
   */
  method HandleUpdateBlenderMeshData(sock: Socket, s: Store, name: string, decode: seq<byte> -> Option<MeshHeader>)
    returns (r: Store, ok: bool)
    requires Valid(s)
    modifies sock
    ensures Valid(r) && IsMesh(r, name) && name in r.blenderMeshes
    ensures var p := PrepareMesh(s, name);
            r == p.(blenderMeshes := p.blenderMeshes[name := r.blenderMeshes[name]])
    ensures !ok ==> r.blenderMeshes[name].geometry == PrepareMesh(s, name).blenderMeshes[name].geometry
    ensures ok ==>
              var m := r.blenderMeshes[name];
              var h := MeshHeader(m.numVertices, m.numTriangles, m.geometry.normals.Some?, m.geometry.colors.Some?);
              m.numVertices != 0 && m.numTriangles != 0 && SizedBy(m.geometry, h) &&
              exists payload :: decode(payload) == Some(h) &&
                ParseFrame(old(sock.inbox.data)) == Some(Split(payload, Wire(m.geometry) + sock.inbox.data))
    ensures sock.outbox == old(sock.outbox)
  {
    var p := PrepareMesh(s, name);
    var header, g := ReceiveMeshUpload(sock, decode);
    r := ApplyMeshUpload(p, name, header, g);
    ok := g.Some?;
    if ok {
      var h := header.value;
      assert h == MeshHeader(r.blenderMeshes[name].numVertices, r.blenderMeshes[name].numTriangles,
                             g.value.normals.Some?, g.value.colors.Some?);
    }
  }
}
