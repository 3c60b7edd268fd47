/**
 * The marker list store and its configuration codec (`ConfigManager`).
 *
 * The manager keeps an ordered list of markers and a debug flag. Saving turns them into a
 * tree: a `GENERAL` node with the `debug` flag and a `MARKERS` node whose i-th child
 * `MARKER_i` holds the twelve fields of marker i. Loading reads such a tree back field by
 * field, keeping the record's default for every field that is missing, empty or unparseable.
 *
 * The configuration file itself is a `ConfigFile` value: missing, present but unreadable,
 * or read into a tree. Saving returns the tree that would be written.
 */
module Config {
  import opened Wrappers
  import opened DotNet
  import opened Unity
  import opened Markers
  import opened ConfigTree

  /**
   * The host's `float.ToString()` and `float.TryParse`, which depend on the culture and on
   * the float's precision and are therefore not interpreted.
   */
  datatype FloatText = FloatText(Format: real -> string, Parse: string -> Option<real>)

  /**
   * The float pair gives back `x` from the text it writes for it, and that text is not empty.
   * A real conversion cannot do this for every real (it rounds), so this is asked only of
   * the values actually saved.
   */
  predicate RoundTripsAt(ft: FloatText, x: real) {
    ft.Format(x) != "" && ft.Parse(ft.Format(x)) == Some(x)
  }

  /** The six float fields of `m` survive the float pair. */
  predicate FloatsRoundTrip(m: MarkerData, ft: FloatText) {
    RoundTripsAt(ft, m.positionX) && RoundTripsAt(ft, m.positionY) && RoundTripsAt(ft, m.radius)
    && RoundTripsAt(ft, m.color.r) && RoundTripsAt(ft, m.color.g) && RoundTripsAt(ft, m.color.b)
  }

  /** The float fields of every marker of `ms` survive the float pair. */
  predicate AllFloatsRoundTrip(ms: seq<MarkerData>, ft: FloatText) {
    forall i :: 0 <= i < |ms| ==> FloatsRoundTrip(ms[i], ft)
  }

  /** What `File.Exists` and `ConfigNode.Load` find. */
  datatype ConfigFile = Missing | Unreadable | Present(root: ConfigNode)

  // ---------------------------------------------------------------------------
  // Names

  const MarkerPrefix: string := "MARKER_"

  function MarkerNodeName(i: nat): string {
    MarkerPrefix + IntToString(i)
  }

  predicate IsMarkerNode(node: ConfigNode) {
    StartsWith(node.name, MarkerPrefix)
  }

  /** `type.ToString()` */
  function TypeName(t: MarkerType): string {
    match t
    case CrossLines => "CrossLines"
    case Circle => "Circle"
  }

  /** `Enum.TryParse<MarkerType>`, restricted to the symbolic names. */
  function TryParseType(s: string): (r: Option<MarkerType>)
    ensures r.Some? ==> TypeName(r.value) == s
  {
    if s == "CrossLines" then Some(CrossLines)
    else if s == "Circle" then Some(Circle)
    else None
  }

  // ---------------------------------------------------------------------------
  // Saving

  /** The twelve pairs `SaveMarkers` writes for one marker, in the order it writes them. */
  function MarkerFields(m: MarkerData, ft: FloatText): seq<(string, string)> {
    [("name", m.name),
     ("type", TypeName(m.markerType)),
     ("positionX", ft.Format(m.positionX)),
     ("positionY", ft.Format(m.positionY)),
     ("radius", ft.Format(m.radius)),
     ("showGraduations", BoolLiteral(m.showGraduations)),
     ("mainGraduationDivisions", IntToString(m.mainGraduationDivisions)),
     ("subGraduationDivisions", IntToString(m.subGraduationDivisions)),
     ("colorR", ft.Format(m.color.r)),
     ("colorG", ft.Format(m.color.g)),
     ("colorB", ft.Format(m.color.b)),
     ("visible", BoolLiteral(m.visible))]
  }

  lemma MarkerKeysDistinct(m: MarkerData, ft: FloatText)
    ensures DistinctKeys(MarkerFields(m, ft))
  {
  }

  /** The `MARKER_i` node of `SaveMarkers`: the twelve fields of marker `i` and no children. */
  function EncodeMarker(i: nat, m: MarkerData, ft: FloatText): ConfigNode {
    ConfigNode(MarkerNodeName(i), MarkerFields(m, ft), [])
  }

  function EncodeMarkers(ms: seq<MarkerData>, ft: FloatText): seq<ConfigNode> {
    seq(|ms|, i requires 0 <= i < |ms| => EncodeMarker(i, ms[i], ft))
  }

  function EncodeGeneral(debug: bool): ConfigNode {
    ConfigNode("GENERAL", [("debug", BoolLiteral(debug))], [])
  }

  /** The whole tree `SaveMarkers` writes: `GENERAL`, then `MARKERS` with one child per marker. */
  function EncodeConfig(debug: bool, ms: seq<MarkerData>, ft: FloatText): ConfigNode {
    ConfigNode("", [], [EncodeGeneral(debug), ConfigNode("MARKERS", [], EncodeMarkers(ms, ft))])
  }

  // ---------------------------------------------------------------------------
  // Loading

  /** The `debug` coercion: a case-insensitive "true", or exactly "1" or "yes". */
  predicate DebugLiteral(v: string) {
    ToLower(v) == "true" || v == "1" || v == "yes"
  }

  /** The coercion of `showGraduations` and `visible`: a case-insensitive "true" only. */
  predicate FlagLiteral(v: string) {
    ToLower(v) == "true"
  }

  /** `LoadGeneralConfig`: the new debug flag, given the previous one. */
  function DecodeDebug(root: ConfigNode, previous: bool): bool {
    match GetNode(root, "GENERAL")
    case None => previous
    case Some(general) =>
      var v := GetValue(general, "debug");
      if IsNullOrEmpty(v) then previous else DebugLiteral(v.value)
  }

  function NameField(node: ConfigNode): string {
    match GetValue(node, "name")
    case Some(s) => s
    case None => "Marker"
  }

  function TypeField(node: ConfigNode, default: MarkerType): MarkerType {
    var v := GetValue(node, "type");
    if !IsNullOrEmpty(v) && TryParseType(v.value).Some? then TryParseType(v.value).value else default
  }

  function FloatField(node: ConfigNode, key: string, ft: FloatText, default: real): real {
    var v := GetValue(node, key);
    if !IsNullOrEmpty(v) && ft.Parse(v.value).Some? then ft.Parse(v.value).value else default
  }

  function IntField(node: ConfigNode, key: string, default: Int32): Int32 {
    var v := GetValue(node, key);
    if !IsNullOrEmpty(v) && TryParseInt(v.value).Some? then TryParseInt(v.value).value else default
  }

  function FlagField(node: ConfigNode, key: string, default: bool): bool {
    var v := GetValue(node, key);
    if !IsNullOrEmpty(v) then FlagLiteral(v.value) else default
  }

  /** `ParseMarkerFromConfigNode`: a default record, overwritten field by field. */
  function ParseMarker(node: ConfigNode, ft: FloatText): MarkerData {
    var d := Defaults;
    MarkerData(
      NameField(node),
      TypeField(node, d.markerType),
      FloatField(node, "positionX", ft, d.positionX),
      FloatField(node, "positionY", ft, d.positionY),
      FloatField(node, "radius", ft, d.radius),
      FlagField(node, "showGraduations", d.showGraduations),
      IntField(node, "mainGraduationDivisions", d.mainGraduationDivisions),
      IntField(node, "subGraduationDivisions", d.subGraduationDivisions),
      Color(FloatField(node, "colorR", ft, d.color.r),
            FloatField(node, "colorG", ft, d.color.g),
            FloatField(node, "colorB", ft, d.color.b),
            d.color.a),
      FlagField(node, "visible", d.visible))
  }

  /** The records read from the children of `MARKERS`, in the children's order. */
  function DecodeMarkerNodes(nodes: seq<ConfigNode>, ft: FloatText): seq<MarkerData> {
    if nodes == [] then []
    else
      var last := nodes[|nodes| - 1];
      DecodeMarkerNodes(nodes[..|nodes| - 1], ft) + (if IsMarkerNode(last) then [ParseMarker(last, ft)] else [])
  }

  function DecodeMarkers(root: ConfigNode, ft: FloatText): seq<MarkerData> {
    match GetNode(root, "MARKERS")
    case None => []
    case Some(markersNode) => DecodeMarkerNodes(markersNode.nodes, ft)
  }

  // ---------------------------------------------------------------------------
  // The list store

  /** `markers.RemoveAt(index)`: later items move down by one. */
  function RemoveAt<T>(s: seq<T>, index: nat): (r: seq<T>)
    requires index < |s|
    ensures |r| == |s| - 1
    ensures forall j :: 0 <= j < index ==> r[j] == s[j]
    ensures forall j :: index <= j < |r| ==> r[j] == s[j + 1]
  {
    s[..index] + s[index + 1..]
  }

  class ConfigManager {
    var markers: seq<VisualMarker>
    var debugMode: bool
    const floats: FloatText

    constructor (floats: FloatText)
      ensures markers == [] && !debugMode && this.floats == floats
    {
      markers := [];
      debugMode := false;
      this.floats := floats;
    }

    function GetDebugMode(): (debug: bool)
      reads this
      ensures debug == debugMode
    {
      debugMode
    }

    /**
     * Without a readable file nothing changes, the list included; otherwise the list is
     * replaced by fresh records read from the `MARKER_` children, and the flag is reread.
     */
    method LoadMarkers(file: ConfigFile)
      modifies this
      ensures !file.Present? ==> markers == old(markers) && debugMode == old(debugMode)
      ensures file.Present? ==> debugMode == DecodeDebug(file.root, old(debugMode))
      ensures file.Present? ==> Snapshots(markers) == DecodeMarkers(file.root, floats)
      ensures file.Present? ==> forall i :: 0 <= i < |markers| ==> fresh(markers[i])
    {
      if !file.Present? {
        return;
      }
      var root := file.root;
      markers := [];
      LoadGeneralConfig(root);
      var markersNode := GetNode(root, "MARKERS");
      if markersNode.Some? {
        markers := ReadMarkerNodes(markersNode.value.nodes);
      }
    }

    /**
     * The loop of `LoadMarkers`: a fresh record for each child whose name starts with
     * `MARKER_`, in the children's order; other children are skipped.
     */
    method ReadMarkerNodes(markerNodes: seq<ConfigNode>) returns (loaded: seq<VisualMarker>)
      ensures Snapshots(loaded) == DecodeMarkerNodes(markerNodes, floats)
      ensures forall j :: 0 <= j < |loaded| ==> fresh(loaded[j])
    {
      loaded := [];
      for i := 0 to |markerNodes|
        invariant Snapshots(loaded) == DecodeMarkerNodes(markerNodes[..i], floats)
        invariant forall j :: 0 <= j < |loaded| ==> fresh(loaded[j])
      {
        ghost var before := loaded;
        ghost var decoded := Snapshots(loaded);
        var markerNode := markerNodes[i];
        if StartsWith(markerNode.name, MarkerPrefix) {
          var marker := ParseMarkerFromConfigNode(markerNode);
          assert Snapshots(before) == decoded;
          loaded := loaded + [marker];
          assert loaded[..|before|] == before;
          assert Snapshots(loaded) == decoded + [ParseMarker(markerNode, floats)];
        }
        assert markerNodes[..i + 1][..i] == markerNodes[..i];
      }
      assert markerNodes[..|markerNodes|] == markerNodes;
    }

    method LoadGeneralConfig(root: ConfigNode)
      modifies this`debugMode
      ensures debugMode == DecodeDebug(root, old(debugMode))
    {
      var generalNode := GetNode(root, "GENERAL");
      if generalNode.Some? {
        var debugValue := GetValue(generalNode.value, "debug");
        if !IsNullOrEmpty(debugValue) {
          debugMode := ToLower(debugValue.value) == "true" || debugValue.value == "1" || debugValue.value == "yes";
        }
      }
    }

    /** Builds the tree `SaveMarkers` writes; writing it to the file is not modelled. */
    method SaveMarkers() returns (configNode: ConfigNode)
      ensures configNode == EncodeConfig(debugMode, Snapshots(markers), floats)
    {
      configNode := EmptyNode("");
      var generalNode := EmptyNode("GENERAL");
      SetValueAppends(generalNode, "debug", BoolLiteral(debugMode));
      generalNode := SetValue(generalNode, "debug", BoolLiteral(debugMode));
      configNode := AddNode(configNode, generalNode);

      ghost var data := Snapshots(markers);
      var markersNode := EmptyNode("MARKERS");
      for i := 0 to |markers|
        invariant markersNode.name == "MARKERS" && markersNode.values == []
        invariant |markersNode.nodes| == i
        invariant forall j :: 0 <= j < i ==> markersNode.nodes[j] == EncodeMarker(j, data[j], floats)
      {
        var markerNode := MarkerToNode(i, markers[i]);
        markersNode := AddNode(markersNode, markerNode);
      }
      assert markersNode == ConfigNode("MARKERS", [], EncodeMarkers(data, floats));
      configNode := AddNode(configNode, markersNode);
    }

    /** The body of the `SaveMarkers` loop: node `MARKER_i` with the twelve fields of `marker`. */
    method MarkerToNode(i: nat, marker: VisualMarker) returns (markerNode: ConfigNode)
      ensures markerNode == EncodeMarker(i, marker.Data(), floats)
    {
      ghost var fields := MarkerFields(marker.Data(), floats);
      MarkerKeysDistinct(marker.Data(), floats);
      markerNode := EmptyNode(MarkerNodeName(i));
      SetNextPair(markerNode, fields, 0);
      markerNode := SetValue(markerNode, "name", marker.name);
      SetNextPair(markerNode, fields, 1);
      markerNode := SetValue(markerNode, "type", TypeName(marker.markerType));
      SetNextPair(markerNode, fields, 2);
      markerNode := SetValue(markerNode, "positionX", floats.Format(marker.positionX));
      SetNextPair(markerNode, fields, 3);
      markerNode := SetValue(markerNode, "positionY", floats.Format(marker.positionY));
      SetNextPair(markerNode, fields, 4);
      markerNode := SetValue(markerNode, "radius", floats.Format(marker.radius));
      SetNextPair(markerNode, fields, 5);
      markerNode := SetValue(markerNode, "showGraduations", BoolLiteral(marker.showGraduations));
      SetNextPair(markerNode, fields, 6);
      markerNode := SetValue(markerNode, "mainGraduationDivisions", IntToString(marker.mainGraduationDivisions));
      SetNextPair(markerNode, fields, 7);
      markerNode := SetValue(markerNode, "subGraduationDivisions", IntToString(marker.subGraduationDivisions));
      SetNextPair(markerNode, fields, 8);
      markerNode := SetValue(markerNode, "colorR", floats.Format(marker.color.r));
      SetNextPair(markerNode, fields, 9);
      markerNode := SetValue(markerNode, "colorG", floats.Format(marker.color.g));
      SetNextPair(markerNode, fields, 10);
      markerNode := SetValue(markerNode, "colorB", floats.Format(marker.color.b));
      SetNextPair(markerNode, fields, 11);
      markerNode := SetValue(markerNode, "visible", BoolLiteral(marker.visible));
    }

    /**
     * A fresh record: the defaults, then each field present and parseable in `markerNode`.
     * Each field's test (present, non-empty, parseable) is the field function's; the record
     * is written field by field in source order.
     */
    method ParseMarkerFromConfigNode(markerNode: ConfigNode) returns (marker: VisualMarker)
      ensures fresh(marker)
      ensures marker.Data() == ParseMarker(markerNode, floats)
    {
      marker := new VisualMarker();
      var d := Defaults;
      marker.name := NameField(markerNode);
      marker.markerType := TypeField(markerNode, d.markerType);
      marker.positionX := FloatField(markerNode, "positionX", floats, d.positionX);
      marker.positionY := FloatField(markerNode, "positionY", floats, d.positionY);
      marker.radius := FloatField(markerNode, "radius", floats, d.radius);
      marker.showGraduations := FlagField(markerNode, "showGraduations", d.showGraduations);
      marker.mainGraduationDivisions := IntField(markerNode, "mainGraduationDivisions", d.mainGraduationDivisions);
      marker.subGraduationDivisions := IntField(markerNode, "subGraduationDivisions", d.subGraduationDivisions);
      marker.color := marker.color.(r := FloatField(markerNode, "colorR", floats, d.color.r));
      marker.color := marker.color.(g := FloatField(markerNode, "colorG", floats, d.color.g));
      marker.color := marker.color.(b := FloatField(markerNode, "colorB", floats, d.color.b));
      marker.visible := FlagField(markerNode, "visible", d.visible);
    }

    /** Appends `marker` (the object itself) and saves. */
    method AddMarker(marker: VisualMarker) returns (saved: ConfigNode)
      modifies this
      ensures markers == old(markers) + [marker] && debugMode == old(debugMode)
      ensures saved == EncodeConfig(debugMode, Snapshots(markers), floats)
    {
      markers := markers + [marker];
      saved := SaveMarkers();
    }

    /** Removes slot `index` and saves when it is in range; otherwise changes and saves nothing. */
    method RemoveMarker(index: int) returns (saved: Option<ConfigNode>)
      modifies this
      ensures debugMode == old(debugMode)
      ensures 0 <= index < |old(markers)| ==> markers == RemoveAt(old(markers), index)
      ensures !(0 <= index < |old(markers)|) ==> markers == old(markers)
      ensures saved.Some? <==> 0 <= index < |old(markers)|
      ensures saved.Some? ==> saved.value == EncodeConfig(debugMode, Snapshots(markers), floats)
    {
      saved := None;
      if index >= 0 && index < |markers| {
        markers := markers[..index] + markers[index + 1..];
        var tree := SaveMarkers();
        saved := Some(tree);
      }
    }

    /** Replaces slot `index` by `marker` and saves when it is in range; otherwise changes and saves nothing. */
    method UpdateMarker(index: int, marker: VisualMarker) returns (saved: Option<ConfigNode>)
      modifies this
      ensures debugMode == old(debugMode)
      ensures 0 <= index < |old(markers)| ==> markers == old(markers)[index := marker]
      ensures !(0 <= index < |old(markers)|) ==> markers == old(markers)
      ensures saved.Some? <==> 0 <= index < |old(markers)|
      ensures saved.Some? ==> saved.value == EncodeConfig(debugMode, Snapshots(markers), floats)
    {
      saved := None;
      if index >= 0 && index < |markers| {
        markers := markers[index := marker];
        var tree := SaveMarkers();
        saved := Some(tree);
      }
    }
  }
}
