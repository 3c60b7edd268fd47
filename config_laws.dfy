/**
 * Properties of the configuration codec: what a saved tree holds, what reading it back
 * gives, and how the reader treats values that are missing, empty, unparseable or
 * written in an unexpected case.
 */
module ConfigLaws {
  import opened Wrappers
  import opened DotNet
  import opened Markers
  import opened ConfigTree
  import opened Config

  // ---------------------------------------------------------------------------
  // What is saved

  /** The twelve keys of a marker node, in the order they are written. */
  const MarkerKeys: seq<string> :=
    ["name", "type", "positionX", "positionY", "radius", "showGraduations",
     "mainGraduationDivisions", "subGraduationDivisions", "colorR", "colorG", "colorB", "visible"]

  /** A saved marker node carries exactly the twelve keys, once each, in order. */
  lemma EncodedMarkerKeys(i: nat, m: MarkerData, ft: FloatText)
    ensures |EncodeMarker(i, m, ft).values| == |MarkerKeys|
    ensures forall k :: 0 <= k < |MarkerKeys| ==> EncodeMarker(i, m, ft).values[k].0 == MarkerKeys[k]
    ensures DistinctKeys(EncodeMarker(i, m, ft).values)
  {
    MarkerKeysDistinct(m, ft);
  }

  /** The name, type, switches and counts of a saved marker node read back as written. */
  lemma EncodedMarkerReads(i: nat, m: MarkerData, ft: FloatText)
    ensures GetValue(EncodeMarker(i, m, ft), "name") == Some(m.name)
    ensures GetValue(EncodeMarker(i, m, ft), "type") == Some(TypeName(m.markerType))
    ensures GetValue(EncodeMarker(i, m, ft), "showGraduations") == Some(BoolLiteral(m.showGraduations))
    ensures GetValue(EncodeMarker(i, m, ft), "mainGraduationDivisions") == Some(IntToString(m.mainGraduationDivisions))
    ensures GetValue(EncodeMarker(i, m, ft), "subGraduationDivisions") == Some(IntToString(m.subGraduationDivisions))
    ensures GetValue(EncodeMarker(i, m, ft), "visible") == Some(BoolLiteral(m.visible))
  {
    var pairs := MarkerFields(m, ft);
    MarkerKeysDistinct(m, ft);
    FirstValueAt(pairs, 0);
    FirstValueAt(pairs, 1);
    FirstValueAt(pairs, 5);
    FirstValueAt(pairs, 6);
    FirstValueAt(pairs, 7);
    FirstValueAt(pairs, 11);
  }

  /** The position, radius and colour channels of a saved marker node read back as formatted. */
  lemma EncodedMarkerReadsFloats(i: nat, m: MarkerData, ft: FloatText)
    ensures GetValue(EncodeMarker(i, m, ft), "positionX") == Some(ft.Format(m.positionX))
    ensures GetValue(EncodeMarker(i, m, ft), "positionY") == Some(ft.Format(m.positionY))
    ensures GetValue(EncodeMarker(i, m, ft), "radius") == Some(ft.Format(m.radius))
    ensures GetValue(EncodeMarker(i, m, ft), "colorR") == Some(ft.Format(m.color.r))
    ensures GetValue(EncodeMarker(i, m, ft), "colorG") == Some(ft.Format(m.color.g))
    ensures GetValue(EncodeMarker(i, m, ft), "colorB") == Some(ft.Format(m.color.b))
  {
    var pairs := MarkerFields(m, ft);
    MarkerKeysDistinct(m, ft);
    FirstValueAt(pairs, 2);
    FirstValueAt(pairs, 3);
    FirstValueAt(pairs, 4);
    FirstValueAt(pairs, 8);
    FirstValueAt(pairs, 9);
    FirstValueAt(pairs, 10);
  }

  /** The saved tree: `GENERAL` then `MARKERS`, whose i-th child is `MARKER_i`. */
  lemma SavedConfigShape(debug: bool, ms: seq<MarkerData>, ft: FloatText)
    ensures var root := EncodeConfig(debug, ms, ft);
      |root.nodes| == 2 && root.nodes[0].name == "GENERAL" && root.nodes[1].name == "MARKERS"
      && GetValue(root.nodes[0], "debug") == Some(BoolLiteral(debug))
      && |root.nodes[1].nodes| == |ms|
      && (forall i :: 0 <= i < |ms| ==> root.nodes[1].nodes[i].name == MarkerPrefix + IntToString(i))
  {
  }

  // ---------------------------------------------------------------------------
  // Reading one field back

  lemma TypeRoundTrip(t: MarkerType)
    ensures TypeName(t) != "" && TryParseType(TypeName(t)) == Some(t)
  {
  }

  lemma FlagRoundTrip(node: ConfigNode, key: string, b: bool, default: bool)
    requires GetValue(node, key) == Some(BoolLiteral(b))
    ensures FlagField(node, key, default) == b
  {
    BoolLiteralLower(b);
  }

  /** Examples of the flag reading of `FlagRoundTrip`: "true" in any case, and nothing else. */
  lemma FlagCoercion()
    ensures FlagLiteral("true") && FlagLiteral("True") && FlagLiteral("TRUE")
    ensures !FlagLiteral("1") && !FlagLiteral("yes") && !FlagLiteral("false")
  {
    assert ToLower("TRUE") == "true";
    assert ToLower("True") == "true";
    ToLowerNoUpper("true");
    assert |ToLower("1")| == 1;
    assert |ToLower("yes")| == 3;
    BoolLiteralLower(false);
  }

  lemma IntRoundTrip(node: ConfigNode, key: string, n: Int32, default: Int32)
    requires GetValue(node, key) == Some(IntToString(n))
    ensures IntField(node, key, default) == n
  {
    ParseFormatInt(n);
  }

  lemma FloatRoundTrip(node: ConfigNode, key: string, ft: FloatText, x: real, default: real)
    requires RoundTripsAt(ft, x)
    requires GetValue(node, key) == Some(ft.Format(x))
    ensures FloatField(node, key, ft, default) == x
  {
  }

  // ---------------------------------------------------------------------------
  // Reading a marker back

  /**
   * Whatever the float text conversion does, the name, type, graduation switch, both
   * division counts and visibility of a saved marker read back unchanged.
   */
  lemma DiscreteFieldsRoundTrip(i: nat, m: MarkerData, ft: FloatText)
    ensures var r := ParseMarker(EncodeMarker(i, m, ft), ft);
      r.name == m.name && r.markerType == m.markerType && r.showGraduations == m.showGraduations
      && r.mainGraduationDivisions == m.mainGraduationDivisions
      && r.subGraduationDivisions == m.subGraduationDivisions && r.visible == m.visible
  {
    var node := EncodeMarker(i, m, ft);
    EncodedMarkerReads(i, m, ft);
    TypeRoundTrip(m.markerType);
    FlagRoundTrip(node, "showGraduations", m.showGraduations, Defaults.showGraduations);
    FlagRoundTrip(node, "visible", m.visible, Defaults.visible);
    IntRoundTrip(node, "mainGraduationDivisions", m.mainGraduationDivisions, Defaults.mainGraduationDivisions);
    IntRoundTrip(node, "subGraduationDivisions", m.subGraduationDivisions, Defaults.subGraduationDivisions);
  }

  /** Alpha is never written, so a reread marker is always opaque. */
  lemma AlphaNotSaved(i: nat, m: MarkerData, ft: FloatText)
    ensures ParseMarker(EncodeMarker(i, m, ft), ft).color.a == 1.0
  {
  }

  /**
   * When the float text gives back the marker's six float fields, a saved marker reads back
   * as itself, except that its alpha becomes 1.
   */
  lemma MarkerRoundTrip(i: nat, m: MarkerData, ft: FloatText)
    requires FloatsRoundTrip(m, ft)
    ensures ParseMarker(EncodeMarker(i, m, ft), ft) == WithFullAlpha(m)
  {
    var node := EncodeMarker(i, m, ft);
    DiscreteFieldsRoundTrip(i, m, ft);
    EncodedMarkerReadsFloats(i, m, ft);
    FloatRoundTrip(node, "positionX", ft, m.positionX, Defaults.positionX);
    FloatRoundTrip(node, "positionY", ft, m.positionY, Defaults.positionY);
    FloatRoundTrip(node, "radius", ft, m.radius, Defaults.radius);
    FloatRoundTrip(node, "colorR", ft, m.color.r, Defaults.color.r);
    FloatRoundTrip(node, "colorG", ft, m.color.g, Defaults.color.g);
    FloatRoundTrip(node, "colorB", ft, m.color.b, Defaults.color.b);
  }

  // ---------------------------------------------------------------------------
  // Reading the list back

  /** Every saved child is a marker node. */
  lemma EncodedNodesAreMarkers(ms: seq<MarkerData>, ft: FloatText)
    ensures forall i :: 0 <= i < |ms| ==> IsMarkerNode(EncodeMarkers(ms, ft)[i])
  {
    forall i | 0 <= i < |ms|
      ensures IsMarkerNode(EncodeMarkers(ms, ft)[i])
    {
      StartsWithConcat(MarkerPrefix, IntToString(i));
    }
  }

  /** `m` as saving and reloading can give it back at best: with alpha 1. */
  function WithFullAlpha(m: MarkerData): MarkerData {
    m.(color := m.color.(a := 1.0))
  }

  function AllWithFullAlpha(ms: seq<MarkerData>): (r: seq<MarkerData>)
    ensures |r| == |ms|
  {
    if ms == [] then [] else AllWithFullAlpha(ms[..|ms| - 1]) + [WithFullAlpha(ms[|ms| - 1])]
  }

  /** Decoding one more child adds its record when it is a marker node, and nothing otherwise. */
  lemma DecodeSnoc(nodes: seq<ConfigNode>, node: ConfigNode, ft: FloatText)
    ensures DecodeMarkerNodes(nodes + [node], ft)
         == DecodeMarkerNodes(nodes, ft) + (if IsMarkerNode(node) then [ParseMarker(node, ft)] else [])
  {
    assert (nodes + [node])[..|nodes|] == nodes;
  }

  /** Decoding distributes over concatenation: each child is read on its own, in order. */
  lemma {:induction false} DecodeAppend(a: seq<ConfigNode>, b: seq<ConfigNode>, ft: FloatText)
    ensures DecodeMarkerNodes(a + b, ft) == DecodeMarkerNodes(a, ft) + DecodeMarkerNodes(b, ft)
  {
    if b == [] {
      assert a + b == a;
    } else {
      var n := |b| - 1;
      var last := if IsMarkerNode(b[n]) then [ParseMarker(b[n], ft)] else [];
      DecodeAppend(a, b[..n], ft);
      assert DecodeMarkerNodes(a + b, ft) == DecodeMarkerNodes(a + b[..n], ft) + last by {
        assert a + b == (a + b[..n]) + [b[n]];
        DecodeSnoc(a + b[..n], b[n], ft);
      }
      assert DecodeMarkerNodes(b, ft) == DecodeMarkerNodes(b[..n], ft) + last by {
        assert b == b[..n] + [b[n]];
        DecodeSnoc(b[..n], b[n], ft);
      }
    }
  }

  /** Children whose name does not start with `MARKER_` are skipped wherever they stand. */
  lemma SkipsOtherChildren(a: seq<ConfigNode>, other: ConfigNode, b: seq<ConfigNode>, ft: FloatText)
    requires !IsMarkerNode(other)
    ensures DecodeMarkerNodes(a + [other] + b, ft) == DecodeMarkerNodes(a + b, ft)
  {
    DecodeAppend(a + [other], b, ft);
    DecodeSnoc(a, other, ft);
    DecodeAppend(a, b, ft);
  }

  /** The saved children of a non-empty list: those of all but the last marker, then the last one's. */
  lemma EncodeMarkersSnoc(ms: seq<MarkerData>, ft: FloatText)
    requires ms != []
    ensures EncodeMarkers(ms, ft) == EncodeMarkers(ms[..|ms| - 1], ft) + [EncodeMarker(|ms| - 1, ms[|ms| - 1], ft)]
  {
  }

  /** Reading the saved children of a non-empty list reads the last marker's child last. */
  lemma DecodeEncodedSnoc(ms: seq<MarkerData>, ft: FloatText)
    requires ms != []
    ensures var n := |ms| - 1;
      DecodeMarkerNodes(EncodeMarkers(ms, ft), ft)
      == DecodeMarkerNodes(EncodeMarkers(ms[..n], ft), ft) + [ParseMarker(EncodeMarker(n, ms[n], ft), ft)]
  {
    var n := |ms| - 1;
    EncodeMarkersSnoc(ms, ft);
    StartsWithConcat(MarkerPrefix, IntToString(n));
    DecodeSnoc(EncodeMarkers(ms[..n], ft), EncodeMarker(n, ms[n], ft), ft);
  }

  /** Reading the saved children gives back one record per marker, in order. */
  lemma {:induction false} DecodeEncodedMarkers(ms: seq<MarkerData>, ft: FloatText)
    requires AllFloatsRoundTrip(ms, ft)
    ensures DecodeMarkerNodes(EncodeMarkers(ms, ft), ft) == AllWithFullAlpha(ms)
  {
    if ms != [] {
      var n := |ms| - 1;
      assert AllFloatsRoundTrip(ms[..n], ft) && FloatsRoundTrip(ms[n], ft) by {
        assert forall i :: 0 <= i < n ==> ms[..n][i] == ms[i];
      }
      DecodeEncodedMarkers(ms[..n], ft);
      MarkerRoundTrip(n, ms[n], ft);
      DecodeEncodedSnoc(ms, ft);
    }
  }

  /** Save then load gives back the debug flag, whatever the flag was before. */
  lemma DebugRoundTrip(debug: bool, previous: bool, ms: seq<MarkerData>, ft: FloatText)
    ensures DecodeDebug(EncodeConfig(debug, ms, ft), previous) == debug
  {
    var root := EncodeConfig(debug, ms, ft);
    assert GetNode(root, "GENERAL") == Some(root.nodes[0]);
    BoolLiteralLower(debug);
  }

  /** Examples of the debug flag's reading: "true" in any case, and "1" and "yes" exactly as written. */
  lemma DebugCoercion()
    ensures DebugLiteral("true") && DebugLiteral("TRUE") && DebugLiteral("True")
    ensures DebugLiteral("1") && DebugLiteral("yes")
    ensures !DebugLiteral("YES") && !DebugLiteral("false") && !DebugLiteral("0")
  {
    assert ToLower("TRUE") == "true";
    assert ToLower("True") == "true";
    ToLowerNoUpper("true");
    assert ToLower("YES")[0] == 'y';
    assert ToLower("0") == "0";
  }

  /**
   * Save then load gives back the list marker for marker (alpha aside) when the float text
   * conversion gives back the float fields of every saved marker.
   */
  lemma SaveLoadRoundTrip(debug: bool, ms: seq<MarkerData>, ft: FloatText)
    requires AllFloatsRoundTrip(ms, ft)
    ensures DecodeMarkers(EncodeConfig(debug, ms, ft), ft) == AllWithFullAlpha(ms)
  {
    var root := EncodeConfig(debug, ms, ft);
    assert "GENERAL" != "MARKERS" by {
      assert "GENERAL"[0] != "MARKERS"[0];
    }
    assert GetNode(root, "MARKERS") == Some(root.nodes[1]);
    DecodeEncodedMarkers(ms, ft);
  }

  /** The fields that survive saving whatever the float text conversion does. */
  predicate SameDiscreteFields(a: MarkerData, b: MarkerData) {
    a.name == b.name && a.markerType == b.markerType && a.showGraduations == b.showGraduations
    && a.mainGraduationDivisions == b.mainGraduationDivisions
    && a.subGraduationDivisions == b.subGraduationDivisions && a.visible == b.visible
  }

  /** Reading the saved children gives one record per marker, in order, with its discrete fields. */
  lemma {:induction false} DecodeEncodedDiscrete(ms: seq<MarkerData>, ft: FloatText)
    ensures var r := DecodeMarkerNodes(EncodeMarkers(ms, ft), ft);
      |r| == |ms| && forall i :: 0 <= i < |ms| ==> SameDiscreteFields(r[i], ms[i])
  {
    if ms != [] {
      var n := |ms| - 1;
      var before := DecodeMarkerNodes(EncodeMarkers(ms[..n], ft), ft);
      var last := ParseMarker(EncodeMarker(n, ms[n], ft), ft);
      DecodeEncodedDiscrete(ms[..n], ft);
      DiscreteFieldsRoundTrip(n, ms[n], ft);
      DecodeEncodedSnoc(ms, ft);
      SameDiscreteSnoc(before, last, ms);
    }
  }

  /** Matching a list but its last marker, then the last marker, matches the whole list. */
  lemma SameDiscreteSnoc(before: seq<MarkerData>, last: MarkerData, ms: seq<MarkerData>)
    requires ms != [] && |before| == |ms| - 1
    requires forall i :: 0 <= i < |before| ==> SameDiscreteFields(before[i], ms[..|before|][i])
    requires SameDiscreteFields(last, ms[|before|])
    ensures forall i :: 0 <= i < |ms| ==> SameDiscreteFields((before + [last])[i], ms[i])
  {
    forall i | 0 <= i < |ms|
      ensures SameDiscreteFields((before + [last])[i], ms[i])
    {
      if i < |before| {
        assert ms[..|before|][i] == ms[i];
      }
    }
  }

  /**
   * Whatever the float text conversion does, save then load gives back as many markers as
   * were saved, in the same order, each with its name, type, graduation switch, division
   * counts and visibility.
   */
  lemma SaveLoadKeepsDiscreteFields(debug: bool, ms: seq<MarkerData>, ft: FloatText)
    ensures var r := DecodeMarkers(EncodeConfig(debug, ms, ft), ft);
      |r| == |ms| && forall i :: 0 <= i < |ms| ==> SameDiscreteFields(r[i], ms[i])
  {
    var root := EncodeConfig(debug, ms, ft);
    assert "GENERAL" != "MARKERS" by {
      assert "GENERAL"[0] != "MARKERS"[0];
    }
    assert GetNode(root, "MARKERS") == Some(root.nodes[1]);
    DecodeEncodedDiscrete(ms, ft);
  }

  // ---------------------------------------------------------------------------
  // Missing, empty and malformed values

  /** A node with no values reads as the record defaults. */
  lemma NoValuesGivesDefaults(name: string, children: seq<ConfigNode>, ft: FloatText)
    ensures ParseMarker(ConfigNode(name, [], children), ft) == Defaults
  {
  }

  /** An empty name is kept: only a missing name falls back to "Marker". */
  lemma EmptyNameIsKept(node: ConfigNode, ft: FloatText)
    requires GetValue(node, "name") == Some("")
    ensures ParseMarker(node, ft).name == ""
    ensures ParseMarker(WithoutValue(node, "name"), ft).name == "Marker"
  {
    WithoutValueReads(node, "name", "name");
  }

  /** The float-valued keys. */
  const FloatKeys: seq<string> := ["positionX", "positionY", "radius", "colorR", "colorG", "colorB"]

  /** The integer-valued keys. */
  const IntKeys: seq<string> := ["mainGraduationDivisions", "subGraduationDivisions"]

  /** Removing `key` changes what `key` reads and nothing else the parser reads. */
  lemma RemovalReads(node: ConfigNode, key: string)
    ensures GetValue(WithoutValue(node, key), "name") == if key == "name" then None else GetValue(node, "name")
    ensures GetValue(WithoutValue(node, key), "type") == if key == "type" then None else GetValue(node, "type")
    ensures GetValue(WithoutValue(node, key), "positionX") == if key == "positionX" then None else GetValue(node, "positionX")
    ensures GetValue(WithoutValue(node, key), "positionY") == if key == "positionY" then None else GetValue(node, "positionY")
    ensures GetValue(WithoutValue(node, key), "radius") == if key == "radius" then None else GetValue(node, "radius")
    ensures GetValue(WithoutValue(node, key), "showGraduations")
         == if key == "showGraduations" then None else GetValue(node, "showGraduations")
    ensures GetValue(WithoutValue(node, key), "mainGraduationDivisions")
         == if key == "mainGraduationDivisions" then None else GetValue(node, "mainGraduationDivisions")
    ensures GetValue(WithoutValue(node, key), "subGraduationDivisions")
         == if key == "subGraduationDivisions" then None else GetValue(node, "subGraduationDivisions")
    ensures GetValue(WithoutValue(node, key), "colorR") == if key == "colorR" then None else GetValue(node, "colorR")
    ensures GetValue(WithoutValue(node, key), "colorG") == if key == "colorG" then None else GetValue(node, "colorG")
    ensures GetValue(WithoutValue(node, key), "colorB") == if key == "colorB" then None else GetValue(node, "colorB")
    ensures GetValue(WithoutValue(node, key), "visible") == if key == "visible" then None else GetValue(node, "visible")
  {
    WithoutValueReads(node, key, "name");
    WithoutValueReads(node, key, "type");
    WithoutValueReads(node, key, "positionX");
    WithoutValueReads(node, key, "positionY");
    WithoutValueReads(node, key, "radius");
    WithoutValueReads(node, key, "showGraduations");
    WithoutValueReads(node, key, "mainGraduationDivisions");
    WithoutValueReads(node, key, "subGraduationDivisions");
    WithoutValueReads(node, key, "colorR");
    WithoutValueReads(node, key, "colorG");
    WithoutValueReads(node, key, "colorB");
    WithoutValueReads(node, key, "visible");
  }

  /** A float value that does not parse is read exactly as if it were missing. */
  lemma MalformedFloatIsMissing(node: ConfigNode, key: string, ft: FloatText)
    requires key in FloatKeys
    requires GetValue(node, key).Some? && ft.Parse(GetValue(node, key).value).None?
    ensures ParseMarker(node, ft) == ParseMarker(WithoutValue(node, key), ft)
  {
    RemovalReads(node, key);
  }

  /** An integer value that does not parse (or overflows) is read exactly as if it were missing. */
  lemma MalformedIntIsMissing(node: ConfigNode, key: string, ft: FloatText)
    requires key in IntKeys
    requires GetValue(node, key).Some? && TryParseInt(GetValue(node, key).value).None?
    ensures ParseMarker(node, ft) == ParseMarker(WithoutValue(node, key), ft)
  {
    RemovalReads(node, key);
  }

  /** A type that names no marker type is read exactly as if it were missing. */
  lemma MalformedTypeIsMissing(node: ConfigNode, ft: FloatText)
    requires GetValue(node, "type").Some? && TryParseType(GetValue(node, "type").value).None?
    ensures ParseMarker(node, ft) == ParseMarker(WithoutValue(node, "type"), ft)
  {
    RemovalReads(node, "type");
  }

  /** An empty value is read exactly as if it were missing, for every key but the name. */
  lemma EmptyValueIsMissing(node: ConfigNode, key: string, ft: FloatText)
    requires key in MarkerKeys && key != "name"
    requires GetValue(node, key) == Some("")
    ensures ParseMarker(node, ft) == ParseMarker(WithoutValue(node, key), ft)
  {
    RemovalReads(node, key);
  }
}
