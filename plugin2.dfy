/**
 * The class-based plugin interface (core/plugin2.h): a plugin's definition
 * (its type, name, shared-library name and parameter definitions) and the
 * base state of a plugin instance (its name, definition, bound and, for
 * scene plugins, the instances and lights it has added).
 *
 * OSPRay handles and bounding meshes are opaque tokens. Deleting a bound is
 * recorded in the list of bounds the instance has freed; the retain count
 * OSPRay keeps for a handle is not modelled.
 */
module Plugin2 {
  import opened Bytes
  import opened Wrappers

  /** `PluginResult`: the outcome a plugin reports back. */
  class PluginResult {
    var success: bool
    var message: string

    /** A new result reports success with an empty message. */
    constructor ()
      ensures success && message == ""
    {
      success := true;
      message := "";
    }

    method SetSuccess(s: bool)
      modifies this
      ensures success == s && message == old(message)
    {
      success := s;
    }

    method SetMessage(msg: string)
      modifies this
      ensures message == msg && success == old(success)
    {
      message := msg;
    }
  }

  datatype PluginType = PT_UNKNOWN | PT_GEOMETRY | PT_VOLUME | PT_SCENE

  datatype ParameterType = PARAM_INT | PARAM_FLOAT | PARAM_STRING | PARAM_USER

  const FLAG_NONE: int := 0x0
  const FLAG_OPTIONAL: int := 0x1

  datatype ParameterDefinition = ParameterDefinition(
    name: string, paramType: ParameterType, length: int, flags: int, description: string)

  /** The file prefix of a plugin type; `PT_UNKNOWN` has none. */
  function TypePrefix(t: PluginType): (r: Option<string>)
    ensures r.None? <==> t == PT_UNKNOWN
  {
    match t
    case PT_GEOMETRY => Some("geometry_")
    case PT_VOLUME => Some("volume_")
    case PT_SCENE => Some("scene_")
    case PT_UNKNOWN => None
  }

  class PluginDefinition {
    var usesRendererType: bool
    var pluginType: PluginType
    var name: string
    var soName: string
    var parameterDefinitions: seq<ParameterDefinition>

    /** Type `PT_UNKNOWN`, empty names, no parameters, and renderer-type dependent. */
    constructor ()
      ensures pluginType == PT_UNKNOWN && name == "" && soName == ""
      ensures usesRendererType
      ensures parameterDefinitions == []
    {
      pluginType := PT_UNKNOWN;
      name := "";
      soName := "";
      usesRendererType := true;
      parameterDefinitions := [];
    }

    /** Appends exactly one definition; neither the name nor the length is checked. */
    method AddParameter(name: string, paramType: ParameterType, length: int, flags: int, description: string)
      modifies this
      ensures parameterDefinitions
              == old(parameterDefinitions) + [ParameterDefinition(name, paramType, length, flags, description)]
      ensures pluginType == old(pluginType) && this.name == old(this.name) && soName == old(soName)
      ensures usesRendererType == old(usesRendererType)
    {
      parameterDefinitions := parameterDefinitions
        + [ParameterDefinition(name, paramType, length, flags, description)];
    }

    /**
     * Sets the type and name; for a known type the shared-library name
     * becomes prefix + name + `.so`, for `PT_UNKNOWN` it is left as it was.
     */
    method SetTypeAndName(t: PluginType, name: string)
      modifies this
      ensures pluginType == t && this.name == name
      ensures soName == if t == PT_UNKNOWN then old(soName) else TypePrefix(t).value + name + ".so"
      ensures parameterDefinitions == old(parameterDefinitions)
      ensures usesRendererType == old(usesRendererType)
    {
      pluginType := t;
      this.name := name;
      match t {
        case PT_GEOMETRY => soName := "geometry_" + name + ".so";
        case PT_VOLUME => soName := "volume_" + name + ".so";
        case PT_SCENE => soName := "scene_" + name + ".so";
        case PT_UNKNOWN =>
      }
    }
  }

  /** An opaque handle: an OSPRay object or a bounding mesh. */
  datatype Handle = Handle(id: nat)

  /** `Plugin`: the state every plugin instance starts from. */
  class Plugin {
    var name: string
    var bound: Option<Handle>
    var definition: Option<Handle>
    /** The bounds this instance has deleted, oldest first. */
    var freedBounds: seq<Handle>

    /** No name, no bound and no definition. */
    constructor ()
      ensures name == "" && bound == None && definition == None
      ensures freedBounds == []
    {
      name := "";
      bound := None;
      definition := None;
      freedBounds := [];
    }

    method Configure(pdef: Handle, name: string)
      modifies this
      ensures definition == Some(pdef) && this.name == name
      ensures bound == old(bound) && freedBounds == old(freedBounds)
    {
      definition := Some(pdef);
      this.name := name;
    }

    /** Unless a plugin overrides it, updating is not feasible. */
    method Update(parameters: string) returns (updated: bool)
      ensures !updated
    {
      updated := false;
    }

    /** Deletes the current bound, if any, and takes the new one. */
    method SetBound(b: Option<Handle>)
      modifies this
      ensures bound == b
      ensures freedBounds == old(freedBounds) + (if old(bound).Some? then [old(bound).value] else [])
      ensures name == old(name) && definition == old(definition)
    {
      if bound.Some? {
        freedBounds := freedBounds + [bound.value];
      }
      bound := b;
    }
  }

  /** A 4x4 transform: sixteen opaque floats. */
  type Matrix = m: seq<F32> | |m| == 16 witness seq(16, _ => F32(0))

  /** `ScenePlugin`: a plugin that hands back group instances and lights. */
  class ScenePlugin {
    var groupInstances: seq<(Handle, Matrix)>
    var lights: seq<Handle>

    constructor ()
      ensures groupInstances == [] && lights == []
    {
      groupInstances := [];
      lights := [];
    }

    method AddInstance(group: Handle, xform: Matrix)
      modifies this
      ensures groupInstances == old(groupInstances) + [(group, xform)]
      ensures lights == old(lights)
    {
      groupInstances := groupInstances + [(group, xform)];
    }

    method AddLight(light: Handle)
      modifies this
      ensures lights == old(lights) + [light]
      ensures groupInstances == old(groupInstances)
    {
      lights := lights + [light];
    }
  }
}
