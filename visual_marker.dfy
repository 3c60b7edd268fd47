/**
 * One overlay marker (`VisualMarker`): a record with public mutable fields that the
 * editor and the configuration parser fill in place, with a field-by-field copy constructor.
 * `MarkerData` is the value of all ten fields at one moment.
 */
module Markers {
  import opened Unity
  import opened DotNet

  datatype MarkerType = CrossLines | Circle

  /** The ten fields of a marker, as a value. */
  datatype MarkerData = MarkerData(
    name: string,
    markerType: MarkerType,
    positionX: real,             // percent of the screen width
    positionY: real,             // percent of the screen height
    radius: real,                // percent of the screen width (circles)
    showGraduations: bool,
    mainGraduationDivisions: Int32,
    subGraduationDivisions: Int32,
    color: Color,
    visible: bool)

  /** The field initialisers of `VisualMarker`. */
  const Defaults: MarkerData :=
    MarkerData("Marker", CrossLines, 50.0, 50.0, 10.0, false, 12, 3, White, true)

  class VisualMarker {
    var name: string
    var markerType: MarkerType
    var positionX: real
    var positionY: real
    var radius: real
    var showGraduations: bool
    var mainGraduationDivisions: Int32
    var subGraduationDivisions: Int32
    var color: Color
    var visible: bool

    function Data(): MarkerData
      reads this
    {
      MarkerData(name, markerType, positionX, positionY, radius, showGraduations,
                 mainGraduationDivisions, subGraduationDivisions, color, visible)
    }

    /** `new VisualMarker()`: every field takes its initialiser. */
    constructor ()
      ensures Data() == Defaults
    {
      name := "Marker";
      markerType := CrossLines;
      positionX := 50.0;
      positionY := 50.0;
      radius := 10.0;
      showGraduations := false;
      mainGraduationDivisions := 12;
      subGraduationDivisions := 3;
      color := White;
      visible := true;
    }

    /** `new VisualMarker(other)`: each field copied in turn. */
    constructor Copy(other: VisualMarker)
      ensures Data() == other.Data()
    {
      name := other.name;
      markerType := other.markerType;
      positionX := other.positionX;
      positionY := other.positionY;
      radius := other.radius;
      showGraduations := other.showGraduations;
      mainGraduationDivisions := other.mainGraduationDivisions;
      subGraduationDivisions := other.subGraduationDivisions;
      color := other.color;
      visible := other.visible;
    }
  }

  /** The field values of a sequence of markers, in order. */
  function Snapshots(ms: seq<VisualMarker>): (r: seq<MarkerData>)
    reads ms
    ensures |r| == |ms|
    ensures forall i :: 0 <= i < |ms| ==> r[i] == ms[i].Data()
  {
    if ms == [] then [] else Snapshots(ms[..|ms| - 1]) + [ms[|ms| - 1].Data()]
  }

  /**
   * The editor's copy-on-create followed by an edit of one colour channel of the copy
   * (`marker.color.r = ...`). The copy is a fresh object and `Color` is a value, so the
   * original keeps all its fields, its colour included.
   */
  method CopyThenSetRed(original: VisualMarker, red: real) returns (copy: VisualMarker)
    ensures fresh(copy)
    ensures copy.Data() == old(original.Data()).(color := old(original.color).(r := red))
    ensures original.Data() == old(original.Data())
  {
    copy := new VisualMarker.Copy(original);
    copy.color := copy.color.(r := red);
  }
}
