/**
  * The tool catalogue every stdio draft returns from `initialize`: server
  * identity plus six namespaced tools, each with an ordered parameter list.
  * The three drafts carry the same literal (standalone-mcp-server.py,
  * src/standalone-mcp-server.py and the shared SERVER_CAPABILITIES of
  * src/daemon_mcp_server.py); it is defined once here.
  */
module Catalogue {
  import opened JsonValue
  import Text

  datatype Param = Param(name: string, required: bool, schemaType: string)

  datatype Tool = Tool(name: string, parameters: seq<Param>)

  const GeometryNamespace := "geometry_tools."
  const SceneNamespace := "scene_tools."

  function Tools(): seq<Tool> {
    [
      Tool("geometry_tools.create_sphere", [
        Param("centerX", true, "number"),
        Param("centerY", true, "number"),
        Param("centerZ", true, "number"),
        Param("radius", true, "number"),
        Param("color", false, "string")]),
      Tool("geometry_tools.create_box", [
        Param("cornerX", true, "number"),
        Param("cornerY", true, "number"),
        Param("cornerZ", true, "number"),
        Param("width", true, "number"),
        Param("depth", true, "number"),
        Param("height", true, "number"),
        Param("color", false, "string")]),
      Tool("geometry_tools.create_cylinder", [
        Param("baseX", true, "number"),
        Param("baseY", true, "number"),
        Param("baseZ", true, "number"),
        Param("height", true, "number"),
        Param("radius", true, "number"),
        Param("color", false, "string")]),
      Tool("scene_tools.get_scene_info", []),
      Tool("scene_tools.clear_scene", [
        Param("currentLayerOnly", false, "boolean")]),
      Tool("scene_tools.create_layer", [
        Param("name", true, "string"),
        Param("color", false, "string")])
    ]
  }

  /** The `description` of each tool, by tool name. */
  function ToolDescription(tool: string): string {
    if tool == "geometry_tools.create_sphere" then "Creates a sphere with the specified center and radius"
    else if tool == "geometry_tools.create_box" then "Creates a box with the specified dimensions"
    else if tool == "geometry_tools.create_cylinder" then "Creates a cylinder with the specified base point, height, and radius"
    else if tool == "scene_tools.get_scene_info" then "Gets information about objects in the current scene"
    else if tool == "scene_tools.clear_scene" then "Clears all objects from the current scene"
    else if tool == "scene_tools.create_layer" then "Creates a new layer in the Rhino document"
    else ""
  }

  /** The `description` of each parameter, by tool and parameter name. */
  function ParamDescription(tool: string, param: string): string {
    if tool == "geometry_tools.create_sphere" && param == "centerX" then "X coordinate of the sphere center"
    else if tool == "geometry_tools.create_sphere" && param == "centerY" then "Y coordinate of the sphere center"
    else if tool == "geometry_tools.create_sphere" && param == "centerZ" then "Z coordinate of the sphere center"
    else if tool == "geometry_tools.create_sphere" && param == "radius" then "Radius of the sphere"
    else if tool == "geometry_tools.create_sphere" && param == "color" then "Optional color for the sphere (e.g., 'red', 'blue', etc.)"
    else if tool == "geometry_tools.create_box" && param == "cornerX" then "X coordinate of the box corner"
    else if tool == "geometry_tools.create_box" && param == "cornerY" then "Y coordinate of the box corner"
    else if tool == "geometry_tools.create_box" && param == "cornerZ" then "Z coordinate of the box corner"
    else if tool == "geometry_tools.create_box" && param == "width" then "Width of the box (X dimension)"
    else if tool == "geometry_tools.create_box" && param == "depth" then "Depth of the box (Y dimension)"
    else if tool == "geometry_tools.create_box" && param == "height" then "Height of the box (Z dimension)"
    else if tool == "geometry_tools.create_box" && param == "color" then "Optional color for the box (e.g., 'red', 'blue', etc.)"
    else if tool == "geometry_tools.create_cylinder" && param == "baseX" then "X coordinate of the cylinder base point"
    else if tool == "geometry_tools.create_cylinder" && param == "baseY" then "Y coordinate of the cylinder base point"
    else if tool == "geometry_tools.create_cylinder" && param == "baseZ" then "Z coordinate of the cylinder base point"
    else if tool == "geometry_tools.create_cylinder" && param == "height" then "Height of the cylinder"
    else if tool == "geometry_tools.create_cylinder" && param == "radius" then "Radius of the cylinder"
    else if tool == "geometry_tools.create_cylinder" && param == "color" then "Optional color for the cylinder (e.g., 'red', 'blue', etc.)"
    else if tool == "scene_tools.clear_scene" && param == "currentLayerOnly" then "If true, only delete objects on the current layer"
    else if tool == "scene_tools.create_layer" && param == "name" then "Name of the new layer"
    else if tool == "scene_tools.create_layer" && param == "color" then "Optional color for the layer (e.g., 'red', 'blue', etc.)"
    else ""
  }

  function ParamToJson(tool: string, p: Param): Json {
    JObj(map[
      "name" := JStr(p.name),
      "description" := JStr(ParamDescription(tool, p.name)),
      "required" := JBool(p.required),
      "schema" := JObj(map["type" := JStr(p.schemaType)])])
  }

  function ToolToJson(t: Tool): Json {
    JObj(map[
      "name" := JStr(t.name),
      "description" := JStr(ToolDescription(t.name)),
      "parameters" := JArr(seq(|t.parameters|, i requires 0 <= i < |t.parameters| => ParamToJson(t.name, t.parameters[i])))])
  }

  function ToolsToJson(ts: seq<Tool>): (js: seq<Json>)
    ensures |js| == |ts|
    ensures forall i :: 0 <= i < |ts| ==> js[i] == ToolToJson(ts[i])
  {
    if |ts| == 0 then [] else [ToolToJson(ts[0])] + ToolsToJson(ts[1..])
  }

  /** The `result` of every `initialize` reply. */
  function Capabilities(): Json {
    JObj(map[
      "serverInfo" := JObj(map["name" := JStr("RhinoMcpServer"), "version" := JStr("0.1.0")]),
      "capabilities" := JObj(map["tools" := JArr(ToolsToJson(Tools()))])])
  }

  /** The reply names the server and lists the tools, one entry per tool,
      in catalogue order. */
  lemma CapabilitiesListsTools()
    ensures Capabilities().JObj? && "serverInfo" in Capabilities().fields && "capabilities" in Capabilities().fields
    ensures Capabilities().fields["capabilities"] == JObj(map["tools" := JArr(ToolsToJson(Tools()))])
  {
  }

  /** The bare operation name after the namespace. */
  predicate Namespaced(name: string) {
    || (Text.StartsWith(name, GeometryNamespace) && |name| > |GeometryNamespace|)
    || (Text.StartsWith(name, SceneNamespace) && |name| > |SceneNamespace|)
  }

  /** Within one tool, every required parameter comes before every optional one. */
  predicate RequiredFirst(t: Tool) {
    forall i, j :: 0 <= i < j < |t.parameters| && t.parameters[j].required ==> t.parameters[i].required
  }

  /** Six tools with distinct names. */
  lemma ToolNamesDistinct()
    ensures |Tools()| == 6
    ensures forall i, j :: 0 <= i < j < |Tools()| ==> Tools()[i].name != Tools()[j].name
  {
    var ts := Tools();
    assert ts[0].name[15..] == "create_sphere";
    assert ts[1].name[15..] == "create_box";
    assert ts[2].name[15..] == "create_cylinder";
    assert ts[3].name[12..] == "get_scene_info";
    assert ts[4].name[12..] == "clear_scene";
    assert ts[5].name[12..] == "create_layer";
  }

  /** Every tool name is `geometry_tools.<op>` or `scene_tools.<op>`. */
  lemma ToolNamesNamespaced()
    ensures forall i :: 0 <= i < |Tools()| ==> Namespaced(Tools()[i].name)
  {
    var ts := Tools();
    forall i | 0 <= i < |ts| ensures Namespaced(ts[i].name) {
      if i < 3 { assert ts[i].name[..|GeometryNamespace|] == GeometryNamespace; }
      else { assert ts[i].name[..|SceneNamespace|] == SceneNamespace; }
    }
  }

  /** In every tool, required parameters come before optional ones. */
  lemma ToolsRequiredFirst()
    ensures forall i :: 0 <= i < |Tools()| ==> RequiredFirst(Tools()[i])
  {
    var ts := Tools();
    forall i | 0 <= i < |ts| ensures RequiredFirst(ts[i]) {
      var ps := ts[i].parameters;
      // the optional parameters are exactly the last one of each list
      assert forall k :: 0 <= k < |ps| - 1 ==> ps[k].required;
    }
  }

  /** What an `initialize` result promises the assistant: the server's
      identity, and the schema entries of six tools with distinct,
      namespaced names whose required parameters come first. */
  predicate AnnouncesSixTools(result: Json) {
    Announces(result, Tools())
  }

  /** `result` carries the server's identity and the schema entries of
      `ts`: six tools with distinct, namespaced names whose required
      parameters come first. */
  predicate Announces(result: Json, ts: seq<Tool>) {
    && result.JObj? && "serverInfo" in result.fields && "capabilities" in result.fields
    && result.fields["capabilities"] == JObj(map["tools" := JArr(ToolsToJson(ts))])
    && |ts| == 6
    && (forall i, j :: 0 <= i < j < |ts| ==> ts[i].name != ts[j].name)
    && (forall i :: 0 <= i < |ts| ==> Namespaced(ts[i].name) && RequiredFirst(ts[i]))
  }

  /** The shared capabilities literal keeps that promise. */
  lemma CapabilitiesAnnounceSixTools()
    ensures AnnouncesSixTools(Capabilities())
  {
    CapabilitiesListsTools();
    ToolNamesDistinct();
    ToolNamesNamespaced();
    ToolsRequiredFirst();
  }
}
