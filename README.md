# Draw Layer overlay: a verified model

This project models the core of a Kerbal Space Program plugin. The plugin draws sighting
markers over the game screen: full-screen crosshairs and circles, the circles optionally with
graduation ticks and dashed spokes. It keeps the markers in a configuration file
(`draw_layer.cfg`) and lets the player edit them.

The model covers five parts of the plugin:

- **Configuration manager** (`Config`, `ConfigLaws`, `ConfigTree`). It loads the marker list
  and the general `debug` flag from a `ConfigNode` tree. It writes the list back as a tree of
  `GENERAL`, then `MARKERS`, whose children are `MARKER_0`, `MARKER_1`, and so on.
  - Adding a marker saves the whole configuration. Removing or updating one saves it only when
    the index is in range; an out-of-range index changes nothing and saves nothing.
  - Whatever the float text conversion does, saving then loading gives back as many markers as
    were saved, in order, each with its name, type, graduation switch, division counts and
    visibility.
  - The float fields come back too when the float text conversion gives back each saved value.
    Alpha is never saved, so a reloaded marker has alpha 1.
  - A missing or empty value of any field but the name falls back to the field's default, and
    so does an unparseable type, float or integer value. A missing name reads as "Marker", but
    an empty one is kept. A graduation or visibility flag other than "true" in any case reads
    as false.
- **Markers** (`Markers`, `Palette`, `Selection`). These are the marker record, its defaults
  and copy constructor, and the 16-colour palette with its display names. `Selection` covers
  the editor's index fix-up after a deletion.
- **Circle geometry** (`CircleGeometry`, `Drawing`). This is the 64-chord outline, the centre
  cross, the graduation ticks and the dashed spokes. Each `Draw...` method returns the
  `GL.LINES` vertex pairs it submits. Each is proved equal to the pairs of a sequence of thick
  lines, which a specification function describes.
- **Crosshair geometry** (`CrossLinesGeometry`). These are two one-pixel lines through the
  marker's centre, spanning the screen.
- **Renderer** (`Rendering`). It owns the line material. It draws the visible markers in list
  order and then the preview marker. It converts percent positions into pixels and dispatches
  on the marker type.

These are modelling conventions:

- Single-precision floats are modelled as reals.
- `Mathf.Cos`, `Sin` and `Sqrt` are uninterpreted functions passed in a `Mathf` value.
- Float formatting and parsing are passed in a `FloatText` value.
- The screen size is a parameter.
- The graphics calls become the returned sequence of `Segment`s.

## Model

| member | source | states |
|---|---|---|
| Config.ConfigManager.constructor | ConfigManager.cs:17-22 | a new manager has an empty marker list and debug off |
| Config.ConfigManager.GetDebugMode | ConfigManager.cs:24-26 | returns the current debug flag |
| Config.ConfigManager.LoadMarkers | ConfigManager.cs:28-60 | a missing or unreadable file changes neither the list nor the flag; otherwise the flag is re-read from `GENERAL` and the list becomes fresh markers decoded from the `MARKER_` children of `MARKERS`, in order |
| Config.ConfigManager.ReadMarkerNodes | ConfigManager.cs:47-56 | the loop over the children yields fresh markers equal to the decoding of exactly the children whose name starts with `MARKER_`, in order |
| Config.ConfigManager.LoadGeneralConfig | ConfigManager.cs:62-75 | the debug flag becomes true for "true" in any case, "1" or "yes", false for any other non-empty value, and is kept when `GENERAL` or `debug` is absent or empty |
| Config.ConfigManager.SaveMarkers | ConfigManager.cs:77-124 | the saved tree is `GENERAL{debug}` followed by `MARKERS` with one encoded node per marker, in list order |
| Config.ConfigManager.MarkerToNode | ConfigManager.cs:97-112 | the node for marker i is named `MARKER_i` and holds the twelve fields in the order they are set |
| Config.ConfigManager.ParseMarkerFromConfigNode | ConfigManager.cs:126-201 | returns a fresh marker whose fields are the decoding of the node, field by field with defaults |
| Config.ConfigManager.AddMarker | ConfigManager.cs:203-207 | the marker is appended, the flag is unchanged, and the saved tree encodes the new list |
| Config.ConfigManager.RemoveMarker | ConfigManager.cs:209-214 | an index in range removes exactly that marker and saves; any other index changes nothing and saves nothing |
| Config.ConfigManager.UpdateMarker | ConfigManager.cs:216-221 | an index in range replaces exactly that marker and saves; any other index changes nothing and saves nothing |
| Config.TryParseType | ConfigManager.cs:133-136 | a type name that parses is exactly the name of the type it gives |
| Config.RemoveAt | ConfigManager.cs:211 | `List.RemoveAt`: one shorter, items before the index kept, items after it shifted down by one |
| Config.MarkerKeysDistinct | ConfigManager.cs:99-110 | the twelve keys written for a marker are pairwise distinct |
| ConfigLaws.EncodedMarkerKeys | ConfigManager.cs:99-110 | a saved marker node has exactly the twelve keys, once each, in the order written |
| ConfigLaws.EncodedMarkerReads | ConfigManager.cs:99-110 | reading back the name, type, graduation flag, division counts and visibility of a saved node gives their written text |
| ConfigLaws.EncodedMarkerReadsFloats | ConfigManager.cs:101-109 | reading back the position, radius and colour channels of a saved node gives their formatted text |
| ConfigLaws.SavedConfigShape | ConfigManager.cs:83-115 | the saved root has `GENERAL` (with `debug`) then `MARKERS`, whose i-th child is `MARKER_i`, one per marker |
| ConfigLaws.TypeRoundTrip | ConfigManager.cs:100 | a type name written is non-empty and parses back to the same type |
| ConfigLaws.FlagRoundTrip | ConfigManager.cs:156-159 | a boolean written in lower case reads back as itself |
| ConfigLaws.FlagCoercion | ConfigManager.cs:158 | example for the graduation and visibility flags: "true", "True" and "TRUE" read as true; "1", "yes" and "false" do not |
| ConfigLaws.IntRoundTrip | ConfigManager.cs:162-171 | an integer written with `ToString` reads back as itself |
| ConfigLaws.FloatRoundTrip | ConfigManager.cs:139-142 | a float reads back as itself when the float text conversion gives back that value from its own text |
| ConfigLaws.DiscreteFieldsRoundTrip | ConfigManager.cs:97-193 | whatever float conversion is used, name, type, graduation flag, both division counts and visibility survive save then load |
| ConfigLaws.AlphaNotSaved | ConfigManager.cs:107-109 | a reloaded marker is always opaque: alpha is not written |
| ConfigLaws.MarkerRoundTrip | ConfigManager.cs:97-193 | save then parse gives the marker back with alpha 1, when the float text conversion gives back its six float fields |
| ConfigLaws.EncodedNodesAreMarkers | ConfigManager.cs:97 | every saved child's name starts with `MARKER_` |
| ConfigLaws.DecodeSnoc | ConfigManager.cs:49-56 | one more child adds its decoded marker if its name starts with `MARKER_`, and nothing otherwise |
| ConfigLaws.DecodeAppend | ConfigManager.cs:49-56 | decoding distributes over concatenation of children |
| ConfigLaws.SkipsOtherChildren | ConfigManager.cs:50 | a child not named `MARKER_...` is ignored wherever it stands |
| ConfigLaws.DecodeEncodedMarkers | ConfigManager.cs:49-56 | decoding the saved children gives one marker per saved marker, in order, alpha set to 1, when the float text conversion gives back every saved float field |
| ConfigLaws.DebugRoundTrip | ConfigManager.cs:64-69 | save then load restores the debug flag whatever it was before |
| ConfigLaws.DebugCoercion | ConfigManager.cs:68 | example for the debug flag: "true", "TRUE", "True", "1" and "yes" read as true; "YES", "false" and "0" do not |
| ConfigLaws.DecodeEncodedDiscrete | ConfigManager.cs:49-56 | with any float text conversion, decoding the saved children gives one marker per saved marker, in order, with its name, type, graduation switch, division counts and visibility |
| ConfigLaws.SaveLoadKeepsDiscreteFields | ConfigManager.cs:45-57 | with any float text conversion, save then load gives back as many markers as were saved, in order, each with its name, type, graduation switch, division counts and visibility |
| ConfigLaws.SaveLoadRoundTrip | ConfigManager.cs:45-57 | save then load restores the whole list (alpha set to 1) when the float text conversion gives back every saved float field |
| ConfigLaws.NoValuesGivesDefaults | ConfigManager.cs:128-193 | a marker node with no values parses to the field defaults |
| ConfigLaws.EmptyNameIsKept | ConfigManager.cs:131 | an empty name is kept as empty; only a missing name becomes "Marker" |
| ConfigLaws.MalformedFloatIsMissing | ConfigManager.cs:139-187 | an unparseable float value reads as if the key were absent |
| ConfigLaws.MalformedIntIsMissing | ConfigManager.cs:162-171 | an unparseable or out-of-range integer reads as if the key were absent |
| ConfigLaws.MalformedTypeIsMissing | ConfigManager.cs:133-136 | an unknown type name reads as if the key were absent |
| ConfigLaws.EmptyValueIsMissing | ConfigManager.cs:133-193 | an empty value of any key but `name` reads as if the key were absent |
| DotNet.ParseFormatInt | ConfigManager.cs:105 | `int.TryParse` of `int.ToString` gives back the same 32-bit integer |
| DotNet.BoolLiteralLower | ConfigManager.cs:104 | `bool.ToString().ToLower()` is "true" exactly for true |
| ConfigTree.SetValueReads | ConfigManager.cs:99 | after `SetValue(key, v)` the key reads v and every other key reads as before |
| Markers.VisualMarker.constructor | VisualMarker.cs:11-23 | a new marker has the field initialisers: "Marker", crosshair, (50, 50), radius 10, no graduations, 12 and 3 divisions, white, visible |
| Markers.VisualMarker.Copy | VisualMarker.cs:25-36 | the copy has all ten fields of the original |
| Markers.CopyThenSetRed | VisualMarker.cs:25-36 | editing a colour channel of a copy leaves the original unchanged |
| Palette.ToColor | PredefinedColors.cs:22-64 | each palette colour is opaque and its channels are table values |
| Palette.GetName | PredefinedColors.cs:66-69 | a colour's name is non-empty, starts with a capital and has no space |
| Palette.PaletteIsClosed | PredefinedColors.cs:22-56 | the palette lists exactly 16 distinct colours, each one of them |
| Palette.ToColorInjective | PredefinedColors.cs:22-64 | distinct palette entries have distinct colours |
| Palette.GetNameInjective | PredefinedColors.cs:66-69 | distinct palette entries have distinct names |
| Palette.DisplayNameLength | PredefinedColors.cs:71-83 | the display name is the name plus one space per capital |
| Palette.DisplayNameRemoveSpaces | PredefinedColors.cs:71-83 | removing spaces from a display name removes exactly the inserted ones |
| Palette.DisplayNameRecoversName | PredefinedColors.cs:71-83 | the colour name is recovered from its display name by removing spaces |
| Palette.DisplayNameLightBlue | PredefinedColors.cs:71-83 | example: `LightBlue` displays as " Light Blue", with a leading space |
| Palette.DisplayNameRed | PredefinedColors.cs:71-83 | example: `Red` displays as " Red" |
| Palette.GetDisplayName | PredefinedColors.cs:71-83 | the loop builds the display name, one longer per capital |
| Selection.SelectionFollowsMarker | UIManager.cs:68-73 | after a deletion the selection still designates the same marker, or is -1 exactly when the selected marker was deleted |
| Drawing.PairsShape | CircleMarker.cs:142-152 | a line of thickness t submits t vertex pairs (none for t <= 0), the k-th shifted k pixels right |
| Drawing.DrawLine | CircleMarker.cs:142-152 | the thickness loop submits exactly those pairs |
| Drawing.FlattenCount | CircleMarker.cs:142-152 | a sequence of lines submits as many pairs as the sum of its positive thicknesses |
| CircleGeometry.DashCountBounds | CircleMarker.cs:167-187 | the walk draws one dash per started period of 8 along the line, none on a line of length <= 0 |
| CircleGeometry.DashesOnTheLine | CircleMarker.cs:167-187 | every dash lies on the line, is non-empty, is at most 4 long and is followed by a gap of 4 |
| CircleGeometry.DashTotalSoFar | CircleMarker.cs:167-187 | the first k dashes cover the line up to the end of dash k-1 less the k-1 gaps |
| CircleGeometry.DashTotalBound | CircleMarker.cs:167-187 | the dashes together never exceed the line length, nor 4 per dash |
| CircleGeometry.CircleMarker.CircleShape | CircleMarker.cs:37-56 | 64 chords of thickness 2 at steps of 5.625 degrees, each starting where the previous ends, the last ending at 360 degrees |
| CircleGeometry.CircleMarker.DrawCircle | CircleMarker.cs:37-56 | the loop submits the pairs of those 64 chords in order |
| CircleGeometry.CircleMarker.CenterCross | CircleMarker.cs:58-71 | two lines of thickness 2 and half-length 8 through the centre, horizontal then vertical |
| CircleGeometry.CircleMarker.DrawCenter | CircleMarker.cs:58-71 | submits the pairs of those two lines |
| CircleGeometry.CircleMarker.TickSizes | CircleMarker.cs:99-137 | the marked main tick is 25 long and 3 thick, other main ticks 20 and 2, sub-ticks 10 and 1, all from the rim inwards |
| CircleGeometry.CircleMarker.GraduationAt | CircleMarker.cs:92-140 | line BlockStart(i) + j of the graduations is line j of main graduation i's block |
| CircleGeometry.CircleMarker.BlockContents | CircleMarker.cs:99-137 | a block is main tick i followed by sub-ticks 1 .. s-1 |
| CircleGeometry.CircleMarker.BlockStartIsProduct | CircleMarker.cs:99-137 | block i starts after i blocks of 1 + (s-1) lines each |
| CircleGeometry.CircleMarker.GraduationCount | CircleMarker.cs:92-140 | no graduations when there are at most 1 main divisions, otherwise n main ticks each followed by its sub-ticks |
| CircleGeometry.CircleMarker.DrawGraduations | CircleMarker.cs:92-140 | the loop submits the pairs of every block in order |
| CircleGeometry.CircleMarker.DrawGraduation | CircleMarker.cs:100-138 | one iteration submits main tick i then its sub-ticks |
| CircleGeometry.CircleMarker.DrawSubGraduations | CircleMarker.cs:121-137 | the inner loop submits sub-ticks 1 .. s-1, none when s <= 1 |
| CircleGeometry.CircleMarker.RadialSpokes | CircleMarker.cs:73-90 | no spokes with at most 1 main division; otherwise spoke i, the dashed line from the centre to main graduation i on the rim, sits whole right after the spokes before it |
| CircleGeometry.CircleMarker.DrawRadialLines | CircleMarker.cs:73-90 | submits a dashed spoke from the centre to each main graduation on the rim, none when there are at most 1 divisions |
| CircleGeometry.CircleMarker.DrawDottedLine | CircleMarker.cs:154-190 | the walk submits exactly the dashes of the line, each as `thickness` shifted pairs |
| CircleGeometry.CircleMarker.Draw | CircleMarker.cs:27-35 | outline, centre cross, then graduations and spokes only when graduations are shown |
| CircleGeometry.CircleMarker.PlainCircle | CircleMarker.cs:27-35 | without graduations a circle draws 66 lines and 132 vertex pairs |
| CrossLinesGeometry.CrossLinesMarker.Draw | CrossLinesMarker.cs:14-32 | two lines in the marker's colour: horizontal at the centre's height from x = 0 to the screen width, then vertical at the centre's abscissa from y = 0 to the screen height |
| CrossLinesGeometry.CrossLinesMarker.CrossesAtCenter | CrossLinesMarker.cs:14-32 | when the centre is on screen it lies on both lines |
| CrossLinesGeometry.CrossLinesMarker.DrawLine | CrossLinesMarker.cs:34-42 | a crosshair line is a single vertex pair, the one a thickness-1 thick line submits |
| Rendering.Visible | MarkerRenderer.cs:32-36 | the visible markers of a list: only visible ones, and every visible one |
| Rendering.VisiblePassIsFilterThenDraw | MarkerRenderer.cs:32-36 | the list pass draws exactly the visible markers, in list order |
| Rendering.HiddenMarkerIgnored | MarkerRenderer.cs:32-36 | an invisible marker contributes nothing: the frame equals that of the list without it |
| Rendering.FrameOrder | MarkerRenderer.cs:25-44 | nothing without material or list; otherwise the visible markers, then the preview last and only if present and visible |
| Rendering.PositionOnScreen | MarkerRenderer.cs:47-50 | positions between 0 and 100 percent land on the screen |
| Rendering.PercentScale | MarkerRenderer.cs:47-56 | 50 percent is the middle of the screen; the pixel radius depends on the width only, 100 percent being the width |
| Rendering.DrawMarker | MarkerRenderer.cs:46-65 | a crosshair marker draws two segments in its colour; a circle marker's drawing starts with the 128 pairs of its circle's 64-chord outline |
| Rendering.OutlineFirst | CircleMarker.cs:27-35 | a circle's drawing starts with the 128 pairs of its outline |
| Rendering.CrossLinesDispatch | MarkerRenderer.cs:52-54 | a crosshair marker draws the two screen-spanning lines through its pixel centre in its colour |
| Rendering.CircleDispatch | MarkerRenderer.cs:55-63 | a circle marker draws the circle built from its pixel centre, pixel radius, colour, graduation switch and divisions, outline first |
| Rendering.DefaultCircleIsPlain | MarkerRenderer.cs:55-63 | a fresh marker switched to a circle draws 132 pairs: outline and centre cross only |
| Rendering.DefaultIsCenteredCrosshair | MarkerRenderer.cs:46-54 | a fresh marker draws a white crosshair through the middle of the screen |
| Rendering.MarkerRenderer.constructor | MarkerRenderer.cs:9-11 | a renderer starts with a fresh material |
| Rendering.MarkerRenderer.CreateLineMaterial | MarkerRenderer.cs:13-23 | creates a material only when there is none and keeps an existing one |
| Rendering.MarkerRenderer.DrawMarkers | MarkerRenderer.cs:25-44 | submits exactly the frame segments for the current material, list snapshot and preview |
| Rendering.MarkerRenderer.Dispose | MarkerRenderer.cs:67-72 | afterwards there is no material, whatever the state before |
| Rendering.MarkerRenderer.DisposeThenDraw | MarkerRenderer.cs:67-72 | disposing twice is harmless, and a disposed renderer draws nothing |

## Left out

- File I/O, the `draw_layer.cfg` path and `ConfigNode.Load`/`Save` are out of scope. The file reaches the model as `Missing`, `Unreadable` or `Present(tree)`, and saving returns the tree.
- Logging (`Logger`) is out of scope; it has no effect on state.
- `Config.ConfigManager.ParseMarkerFromConfigNode`: the `catch` branch is not modelled. Nothing in the modelled body throws, so it cannot be reached.
- `Config.ConfigManager.LoadGeneralConfig`: the `catch` branch is not modelled. Nothing in the modelled body throws, so it cannot be reached.
- `Config.ConfigManager.SaveMarkers`: the `catch` around the save is not modelled, because I/O errors are out of scope.
- The save/load round trips are stated on the `ConfigNode` tree. They assume that `ConfigNode.Save` followed by `ConfigNode.Load` gives back the same tree.
- `ConfigNode.SetValue` is taken to overwrite an existing key or append a new one. The host library is not part of this model. If its two-argument `SetValue` only overwrote and never added a missing key, every node `SaveMarkers` writes would be empty, since each is freshly created. The save/load round trips rest on the set-or-append reading.
- Float text: `float.ToString` and `float.TryParse` are given as a `FloatText` pair, and culture is not modelled. The discrete fields round-trip whatever the pair does. The float fields round-trip only when the pair gives back each saved value from its own text, which a rounding conversion does not do for every real.
- `Enum.TryParse` is modelled as an exact, case-sensitive match of the symbolic names. The model does not accept what .NET also accepts: numeric strings, surrounding whitespace and comma-separated lists of names.
- `ToLower` and `char.IsUpper` are modelled for ASCII letters only.
- Colour alpha is not saved by the source, and the model keeps that: a reloaded marker has alpha 1.
- Floats are reals: rounding is not modelled. This includes a dash walk on a very long line, where adding 4 to the walked length could stop changing it.
- `Mathf.Cos`, `Sin` and `Sqrt` are uninterpreted. The outline closes only under the stated hypothesis that cosine and sine take the same values at 0 and 360 degrees.
- The graphics backend is left out: `GL.Begin`, `GL.End`, `GL.PushMatrix`, `GL.LoadPixelMatrix` and `Material.SetPass`. So are the shader lookup and the material settings. Output is the sequence of vertex pairs in submission order.
- Unity's overloaded `!material` test, which is also true for a destroyed object, is modelled as a null test. `DestroyImmediate` is modelled by dropping the reference.
- `Rendering.DrawMarker`: the circle call in the renderer passes four arguments, including a `divisions` field that `VisualMarker` does not have. The model builds the circle from the marker's own graduation switch and division counts. The marked main graduation angle, which the marker does not carry, is a per-frame parameter.
- `CircleGeometry.CircleMarker.DrawDottedLine` submits each dash's pairs as the thick-line primitive would. The source writes the same vertices inline inside one `GL.LINES` batch; batching is out of scope.
- `CircleGeometry.CircleMarker.DrawGraduation` and `DrawSubGraduations` are the body and the inner loop of `DrawGraduations`, split into their own methods.
- `DrawLayerMod.cs` (the plugin's lifecycle hooks) and the immediate-mode editor GUI of `UIManager.cs` are not part of this model, apart from the selection fix-up after a deletion.
