/** The four built-in font sizes: glyph widths, font files and parsing from configuration text. */
module Fonts {

  datatype MatrixFont = Small | Medium | Large | LargeBold

  /** `font::get_x`: the glyph width in pixels. */
  function Width(f: MatrixFont): (w: int)
    ensures w in {5, 6, 8}
  {
    match f
    case Small => 5
    case Medium => 6
    case Large => 8
    case LargeBold => 8
  }

  /** `font::parse_font`: the .bdf file of the rpi-rgb-led-matrix font library. */
  function FontPath(f: MatrixFont): string
  {
    match f
    case Small => "../fonts/5x8.bdf"
    case Medium => "../fonts/6x9.bdf"
    case Large => "../fonts/8x13.bdf"
    case LargeBold => "../fonts/8x13B.bdf"
  }

  /** `font::font_from_string`: exact, case-sensitive names; anything else is large_bold. */
  function FontFromString(name: string): (f: MatrixFont)
    ensures f == Small <==> name == "small"
    ensures f == Medium <==> name == "medium"
    ensures f == Large <==> name == "large"
  {
    if name == "small" then Small
    else if name == "medium" then Medium
    else if name == "large" then Large
    else LargeBold
  }

  /** The enumerator's name as the configuration spells it. */
  function FontName(f: MatrixFont): string
  {
    match f
    case Small => "small"
    case Medium => "medium"
    case Large => "large"
    case LargeBold => "large_bold"
  }

  /** The widths are small 5, medium 6, large 8 and large_bold 8, so every width is positive. */
  lemma WidthTable()
    ensures Width(Small) == 5 && Width(Medium) == 6
    ensures Width(Large) == 8 && Width(LargeBold) == 8
    ensures forall f: MatrixFont :: Width(f) > 0
  {
  }

  /** Parsing a size's own name gives that size back, for all four sizes. */
  lemma FontNameRoundTrip(f: MatrixFont)
    ensures FontFromString(FontName(f)) == f
  {
  }

  /** Names are case-sensitive, and unknown text falls back to large_bold. */
  lemma FontFromStringFallback()
    ensures FontFromString("Small") == LargeBold
    ensures FontFromString("") == LargeBold
    ensures FontFromString("huge") == LargeBold
  {
  }

  /** Each size has its own font file; large and large_bold share a width but not a file. */
  lemma FontPathsDistinct(f: MatrixFont, g: MatrixFont)
    ensures FontPath(f) == FontPath(g) <==> f == g
    ensures Width(Large) == Width(LargeBold) && FontPath(Large) != FontPath(LargeBold)
  {
  }
}
