/**
 * The closed palette of named colours (`PredefinedColors`) with its RGB table,
 * the identifier of each entry, and the display name derived from it.
 */
module Palette {
  import opened Unity
  import opened DotNet

  datatype PredefinedColor =
    | Red | Green | Blue | Yellow | Cyan | Magenta | White | Black
    | Orange | Purple | Teal | Pink | Lime | LightBlue | LightPink | Gray

  /** Every entry, in declaration order. */
  const AllColors: seq<PredefinedColor> :=
    [Red, Green, Blue, Yellow, Cyan, Magenta, White, Black,
     Orange, Purple, Teal, Pink, Lime, LightBlue, LightPink, Gray]

  /** A channel value used by the table. */
  predicate IsTableChannel(v: real) {
    v == 0.0 || v == 0.5 || v == 1.0
  }

  /** The `[Color(r, g, b)]` attribute of each entry, as an opaque colour. */
  function ToColor(c: PredefinedColor): (col: Color)
    ensures col.a == 1.0
    ensures IsTableChannel(col.r) && IsTableChannel(col.g) && IsTableChannel(col.b)
  {
    match c
    case Red => Color(1.0, 0.0, 0.0, 1.0)
    case Green => Color(0.0, 1.0, 0.0, 1.0)
    case Blue => Color(0.0, 0.0, 1.0, 1.0)
    case Yellow => Color(1.0, 1.0, 0.0, 1.0)
    case Cyan => Color(0.0, 1.0, 1.0, 1.0)
    case Magenta => Color(1.0, 0.0, 1.0, 1.0)
    case White => Color(1.0, 1.0, 1.0, 1.0)
    case Black => Color(0.0, 0.0, 0.0, 1.0)
    case Orange => Color(1.0, 0.5, 0.0, 1.0)
    case Purple => Color(0.5, 0.0, 1.0, 1.0)
    case Teal => Color(0.0, 1.0, 0.5, 1.0)
    case Pink => Color(1.0, 0.0, 0.5, 1.0)
    case Lime => Color(0.5, 1.0, 0.0, 1.0)
    case LightBlue => Color(0.0, 0.5, 1.0, 1.0)
    case LightPink => Color(1.0, 0.5, 0.5, 1.0)
    case Gray => Color(0.5, 0.5, 0.5, 1.0)
  }

  /** The entry's identifier, as reflection reports it. */
  function GetName(c: PredefinedColor): (name: string)
    ensures name != [] && IsUpper(name[0])
    ensures forall i :: 0 <= i < |name| ==> name[i] != ' '
  {
    match c
    case Red => "Red"
    case Green => "Green"
    case Blue => "Blue"
    case Yellow => "Yellow"
    case Cyan => "Cyan"
    case Magenta => "Magenta"
    case White => "White"
    case Black => "Black"
    case Orange => "Orange"
    case Purple => "Purple"
    case Teal => "Teal"
    case Pink => "Pink"
    case Lime => "Lime"
    case LightBlue => "LightBlue"
    case LightPink => "LightPink"
    case Gray => "Gray"
  }

  /** The palette is closed: sixteen distinct entries, and every entry is among them. */
  lemma PaletteIsClosed(c: PredefinedColor)
    ensures |AllColors| == 16
    ensures c in AllColors
    ensures forall i, j :: 0 <= i < j < |AllColors| ==> AllColors[i] != AllColors[j]
  {
  }

  /** No two entries share an RGB triple, so a colour identifies its entry. */
  lemma ToColorInjective(c: PredefinedColor, d: PredefinedColor)
    ensures ToColor(c) == ToColor(d) ==> c == d
  {
  }

  /** No two entries share an identifier. */
  lemma GetNameInjective(c: PredefinedColor, d: PredefinedColor)
    ensures GetName(c) == GetName(d) ==> c == d
  {
    if GetName(c) == GetName(d) {
      var n := GetName(c);
      assert n[0] == GetName(d)[0] && |n| == |GetName(d)|;
      if |n| > 1 {
        assert n[1] == GetName(d)[1];
      }
      if |n| > 5 {
        assert n[5] == GetName(d)[5];
      }
    }
  }

  // ---------------------------------------------------------------------------
  // Display names

  /** `s` with a space put before every upper-case character. */
  function DisplayName(s: string): string {
    if s == [] then []
    else
      var c := s[|s| - 1];
      DisplayName(s[..|s| - 1]) + (if IsUpper(c) then [' ', c] else [c])
  }

  function CountUpper(s: string): nat {
    if s == [] then 0 else CountUpper(s[..|s| - 1]) + (if IsUpper(s[|s| - 1]) then 1 else 0)
  }

  function RemoveSpaces(s: string): string {
    if s == [] then []
    else RemoveSpaces(s[..|s| - 1]) + (if s[|s| - 1] == ' ' then [] else [s[|s| - 1]])
  }

  lemma {:induction false} RemoveSpacesAppend(a: string, b: string)
    ensures RemoveSpaces(a + b) == RemoveSpaces(a) + RemoveSpaces(b)
  {
    if b != [] {
      assert (a + b)[..|a + b| - 1] == a + b[..|b| - 1];
      RemoveSpacesAppend(a, b[..|b| - 1]);
    } else {
      assert a + b == a;
    }
  }

  /** The display name grows by one space per upper-case character. */
  lemma {:induction false} DisplayNameLength(s: string)
    ensures |DisplayName(s)| == |s| + CountUpper(s)
  {
    if s != [] {
      DisplayNameLength(s[..|s| - 1]);
    }
  }

  /** Taking the spaces back out of a display name gives the name, spaces aside. */
  lemma {:induction false} DisplayNameRemoveSpaces(s: string)
    ensures RemoveSpaces(DisplayName(s)) == RemoveSpaces(s)
  {
    if s != [] {
      var p, c := s[..|s| - 1], s[|s| - 1];
      DisplayNameRemoveSpaces(p);
      var tail := if IsUpper(c) then [' ', c] else [c];
      RemoveSpacesAppend(DisplayName(p), tail);
      if IsUpper(c) {
        assert tail[..1] == [' '];
        assert RemoveSpaces(tail) == RemoveSpaces([' ']) + RemoveSpaces([c]) by {
          RemoveSpacesAppend([' '], [c]);
          assert [' '] + [c] == tail;
        }
      }
    }
  }

  lemma {:induction false} RemoveSpacesNoSpaces(s: string)
    requires forall i :: 0 <= i < |s| ==> s[i] != ' '
    ensures RemoveSpaces(s) == s
  {
    if s != [] {
      RemoveSpacesNoSpaces(s[..|s| - 1]);
    }
  }

  /** Deleting the spaces of an entry's display name gives back its identifier. */
  lemma DisplayNameRecoversName(c: PredefinedColor)
    ensures RemoveSpaces(DisplayName(GetName(c))) == GetName(c)
  {
    DisplayNameRemoveSpaces(GetName(c));
    RemoveSpacesNoSpaces(GetName(c));
  }

  lemma DisplayNameSnoc(s: string, c: char)
    ensures DisplayName(s + [c]) == DisplayName(s) + (if IsUpper(c) then [' ', c] else [c])
  {
    assert (s + [c])[..|s|] == s;
  }

  lemma DisplayNameLight()
    ensures DisplayName("Light") == " Light"
  {
    assert DisplayName("L") == " L" by {
      DisplayNameSnoc("", 'L');
      assert "" + ['L'] == "L";
      assert "" + [' ', 'L'] == " L";
    }
    assert DisplayName("Li") == " Li" by {
      DisplayNameSnoc("L", 'i');
      assert "L" + ['i'] == "Li";
      assert " L" + ['i'] == " Li";
    }
    assert DisplayName("Lig") == " Lig" by {
      DisplayNameSnoc("Li", 'g');
      assert "Li" + ['g'] == "Lig";
      assert " Li" + ['g'] == " Lig";
    }
    assert DisplayName("Ligh") == " Ligh" by {
      DisplayNameSnoc("Lig", 'h');
      assert "Lig" + ['h'] == "Ligh";
      assert " Lig" + ['h'] == " Ligh";
    }
    assert DisplayName("Light") == " Light" by {
      DisplayNameSnoc("Ligh", 't');
      assert "Ligh" + ['t'] == "Light";
      assert " Ligh" + ['t'] == " Light";
    }
  }

  /** The two-word example: a space also goes before the first letter. */
  lemma DisplayNameLightBlue()
    ensures DisplayName(GetName(LightBlue)) == " Light Blue"
  {
    DisplayNameLight();
    assert DisplayName("LightB") == " Light B" by {
      DisplayNameSnoc("Light", 'B');
      assert "Light" + ['B'] == "LightB";
      assert " Light" + [' ', 'B'] == " Light B";
    }
    assert DisplayName("LightBl") == " Light Bl" by {
      DisplayNameSnoc("LightB", 'l');
      assert "LightB" + ['l'] == "LightBl";
      assert " Light B" + ['l'] == " Light Bl";
    }
    assert DisplayName("LightBlu") == " Light Blu" by {
      DisplayNameSnoc("LightBl", 'u');
      assert "LightBl" + ['u'] == "LightBlu";
      assert " Light Bl" + ['u'] == " Light Blu";
    }
    assert DisplayName("LightBlue") == " Light Blue" by {
      DisplayNameSnoc("LightBlu", 'e');
      assert "LightBlu" + ['e'] == "LightBlue";
      assert " Light Blu" + ['e'] == " Light Blue";
    }
  }

  /** The one-word example. */
  lemma DisplayNameRed()
    ensures DisplayName(GetName(Red)) == " Red"
  {
    assert DisplayName("R") == " R" by {
      DisplayNameSnoc("", 'R');
      assert "" + ['R'] == "R";
      assert "" + [' ', 'R'] == " R";
    }
    assert DisplayName("Re") == " Re" by {
      DisplayNameSnoc("R", 'e');
      assert "R" + ['e'] == "Re";
      assert " R" + ['e'] == " Re";
    }
    assert DisplayName("Red") == " Red" by {
      DisplayNameSnoc("Re", 'd');
      assert "Re" + ['d'] == "Red";
      assert " Re" + ['d'] == " Red";
    }
  }

  /** `GetDisplayName`: walk the identifier, appending a space before each upper-case letter. */
  method GetDisplayName(c: PredefinedColor) returns (displayName: string)
    ensures displayName == DisplayName(GetName(c))
    ensures |displayName| == |GetName(c)| + CountUpper(GetName(c))
  {
    var name := GetName(c);
    displayName := "";
    var i := 0;
    while i < |name|
      invariant 0 <= i <= |name|
      invariant displayName == DisplayName(name[..i])
    {
      assert name[..i + 1][..i] == name[..i];
      if IsUpper(name[i]) {
        displayName := displayName + " " + [name[i]];
      } else {
        displayName := displayName + [name[i]];
      }
      i := i + 1;
    }
    assert name[..i] == name;
    DisplayNameLength(name);
  }
}
