/**
 * The configuration getters of the scratch element: each reads an attribute
 * (absent, or a string value) and resolves it to a typed value with the
 * element's fallback rules. Attributes are modelled as a map from name to value.
 */
module Config {
  import opened Wrappers
  import opened NumberParsing

  const BrushSizeAttribute := "brush-size"
  const BrushShapeAttribute := "brush-shape"
  const ScratchColorAttribute := "scratch-color"
  const PercentageUpdateAttribute := "percentage-update"

  const DefaultBrushSize := "10"
  const DefaultColor := "#000000"

  /** The canvas line joins the brush may take. */
  datatype LineJoin = Bevel | Miter | Round

  function LineJoinName(j: LineJoin): string
  {
    match j
    case Bevel => "bevel"
    case Miter => "miter"
    case Round => "round"
  }

  /**
   * brushShape: the attribute names a line join if it is "bevel", "miter" or
   * "round"; every other value, and an absent attribute, give Round.
   */
  function BrushShape(attributes: map<string, string>): (j: LineJoin)
    ensures BrushShapeAttribute in attributes && attributes[BrushShapeAttribute] in {"bevel", "miter", "round"}
            ==> LineJoinName(j) == attributes[BrushShapeAttribute]
    ensures !(BrushShapeAttribute in attributes && attributes[BrushShapeAttribute] in {"bevel", "miter", "round"})
            ==> j == Round
  {
    var shape := if BrushShapeAttribute in attributes then attributes[BrushShapeAttribute] else "round";
    if shape == "bevel" then Bevel
    else if shape == "miter" then Miter
    else Round
  }

  /**
   * brushSize: parseInt of the attribute in base 10, "10" when it is absent.
   * A value without leading digits is NaN (None), not the default.
   */
  function BrushSize(attributes: map<string, string>): (size: Option<int>)
    ensures BrushSizeAttribute !in attributes ==> size == Some(10)
    ensures BrushSizeAttribute in attributes ==> size == ParseInt(attributes[BrushSizeAttribute])
  {
    if BrushSizeAttribute in attributes then
      ParseInt(attributes[BrushSizeAttribute])
    else
      var ten := DefaultBrushSize;
      assert IsDigit(ten[0]) && IsDigit(ten[1]) && |ten| == 2;
      assert TrimStart(ten) == ten && StripSign(ten) == ten;
      assert DigitPrefix(ten[1..]) == ten[1..];
      assert DigitPrefix(ten) == ten;
      assert ten[..1] == "1";
      assert DigitsValue(ten) == 10;
      ParseInt(ten)
  }

  /**
   * scratchColor: the attribute value when the host's CSS engine accepts it as
   * a color (`supportsColor` stands for CSS.supports('color', _)), else black.
   */
  function ScratchColor(attributes: map<string, string>, supportsColor: string -> bool): (color: string)
    ensures color == DefaultColor || supportsColor(color)
    ensures color == DefaultColor || (ScratchColorAttribute in attributes && color == attributes[ScratchColorAttribute])
    ensures ScratchColorAttribute in attributes && supportsColor(attributes[ScratchColorAttribute])
            ==> color == attributes[ScratchColorAttribute]
  {
    var color := if ScratchColorAttribute in attributes then attributes[ScratchColorAttribute] else DefaultColor;
    if supportsColor(color) then color else DefaultColor
  }

  /** percentageUpdate: the attribute's presence alone switches coverage reporting on. */
  function PercentageUpdate(attributes: map<string, string>): (enabled: bool)
    ensures enabled <==> PercentageUpdateAttribute in attributes
  {
    PercentageUpdateAttribute in attributes
  }
}
