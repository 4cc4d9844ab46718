/** matrix_color: an RGB triple, the prebuilt palette and lookup of a palette entry by name. */
module Colors {

  /** Components are stored as given; the constructor clamps nothing. */
  datatype Rgb = Rgb(r: int, g: int, b: int)

  datatype Prebuilt =
    | Red | Orange | Yellow | Green | Blue | Purple | Pink
    | White | Gray | Black | Brown | NightTime

  /** The default-constructed colour: every component's in-class initialiser is 0. */
  const Default: Rgb := Rgb(0, 0, 0)

  predicate InByteRange(c: Rgb) {
    0 <= c.r <= 255 && 0 <= c.g <= 255 && 0 <= c.b <= 255
  }

  /**
   * `parse_color`: each case assigns some components of `base`; a component the
   * case does not assign keeps its value.
   */
  function ParseColorOnto(base: Rgb, p: Prebuilt): Rgb
  {
    match p
    case Red => base.(r := 128)
    case Orange => base.(r := 253, g := 88)
    case Yellow => base.(r := 255, g := 228)
    case Green => base.(g := 160)
    case Blue => base.(g := 64, b := 255)
    case Purple => base.(r := 128, b := 128)
    case Pink => base.(r := 228, b := 228)
    case White => Rgb(255, 255, 255)
    case Gray => Rgb(128, 128, 128)
    case Black => Rgb(0, 0, 0)
    case Brown => Rgb(101, 67, 33)
    case NightTime => base.(r := 128)
  }

  /** `matrix_color(prebuilt)`: the components start at 0, then `parse_color` runs. */
  function FromPrebuilt(p: Prebuilt): (c: Rgb)
    ensures InByteRange(c)
  {
    ParseColorOnto(Default, p)
  }

  /** The palette's triples. */
  lemma PaletteTable()
    ensures FromPrebuilt(Red) == Rgb(128, 0, 0)
    ensures FromPrebuilt(Orange) == Rgb(253, 88, 0)
    ensures FromPrebuilt(Yellow) == Rgb(255, 228, 0)
    ensures FromPrebuilt(Green) == Rgb(0, 160, 0)
    ensures FromPrebuilt(Blue) == Rgb(0, 64, 255)
    ensures FromPrebuilt(Purple) == Rgb(128, 0, 128)
    ensures FromPrebuilt(Pink) == Rgb(228, 0, 228)
    ensures FromPrebuilt(White) == Rgb(255, 255, 255)
    ensures FromPrebuilt(Gray) == Rgb(128, 128, 128)
    ensures FromPrebuilt(Black) == Rgb(0, 0, 0)
    ensures FromPrebuilt(Brown) == Rgb(101, 67, 33)
  {
  }

  /** night_time is the same red; prebuilt black is the default colour. */
  lemma PaletteAliases()
    ensures FromPrebuilt(NightTime) == FromPrebuilt(Red)
    ensures FromPrebuilt(Black) == Default
  {
  }

  /**
   * The components a case leaves alone are the base's: from any base, red only
   * writes r, green only g, blue g and b.
   */
  lemma UnassignedComponentsKept(base: Rgb)
    ensures ParseColorOnto(base, Red).g == base.g && ParseColorOnto(base, Red).b == base.b
    ensures ParseColorOnto(base, Green).r == base.r && ParseColorOnto(base, Green).b == base.b
    ensures ParseColorOnto(base, Blue).r == base.r
    ensures ParseColorOnto(base, Orange).b == base.b && ParseColorOnto(base, Yellow).b == base.b
    ensures ParseColorOnto(base, Purple).g == base.g && ParseColorOnto(base, Pink).g == base.g
  {
  }

  /** The name-to-enumerator table held by every matrix_color. */
  const ColorNames: map<string, Prebuilt> := map[
    "red" := Red, "orange" := Orange, "yellow" := Yellow, "green" := Green,
    "blue" := Blue, "purple" := Purple, "pink" := Pink, "white" := White,
    "gray" := Gray, "black" := Black, "brown" := Brown, "night_time" := NightTime]

  /**
   * `colors[name]`: std::map's `operator[]` value-initialises a missing key, and the
   * enumeration's zero value is red.
   */
  function PrebuiltFromName(name: string): (p: Prebuilt)
    ensures name !in ColorNames ==> p == Red
    ensures name in ColorNames ==> p == ColorNames[name]
  {
    if name in ColorNames then ColorNames[name] else Red
  }

  /** `matrix_color(std::string)`. */
  function FromName(name: string): Rgb
  {
    FromPrebuilt(PrebuiltFromName(name))
  }

  /** A known name yields its prebuilt triple; an unknown name yields red (128, 0, 0). */
  lemma FromNameResolves(name: string)
    ensures name in ColorNames ==> FromName(name) == FromPrebuilt(ColorNames[name])
    ensures name !in ColorNames ==> FromName(name) == Rgb(128, 0, 0)
    ensures InByteRange(FromName(name))
  {
  }

  lemma FromNameExamples()
    ensures FromName("blue") == Rgb(0, 64, 255)
    ensures FromName("Blue") == Rgb(128, 0, 0)
    ensures FromName("night_time") == FromName("red")
  {
    assert "Blue" !in ColorNames;
  }
}
