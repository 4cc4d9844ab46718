/**
 * text_line: one line of a clock face. Rendering substitutes the tokens, clamps
 * the result to the 64-pixel matrix and then places it, centring it when the
 * configured x is -1.
 */
module TextLines {
  import CInt
  import opened Fonts
  import opened Colors
  import Template
  import Variables

  /** MATRIX_WIDTH: the display is 64 pixels wide. */
  const MatrixWidth: int := 64

  /** A line as a clock face stores it: the configured fields, never yet rendered. */
  datatype Line = Line(color: Rgb, font: MatrixFont, x: int, y: int, text: string)

  /** `q * w` never exceeds `a` when `q` is `a / w`, and `a / w + 1` glyphs do. */
  lemma DivBounds(a: nat, w: int)
    requires w > 0
    ensures (a / w) * w <= a < (a / w + 1) * w
  {
  }

  /** `n` glyphs of width `w` fit in `a` pixels exactly when `n <= a / w`. */
  lemma FitsIff(n: nat, a: nat, w: int)
    requires w > 0
    ensures n * w <= a <==> n <= a / w
  {
    DivBounds(a, w);
    if n <= a / w {
      assert n * w <= (a / w) * w;
    } else {
      assert (a / w + 1) * w <= n * w;
    }
  }

  /** More glyphs than fit in `a` pixels means the C++ quotient `a / w` is within the text. */
  lemma CountWithin(n: nat, a: int, w: int)
    requires w > 0 && n * w > a
    ensures CInt.Div(a, w) <= n
  {
    if a >= 0 {
      FitsIff(n, a, w);
    }
  }

  /**
   * The clamp at the end of `parse_variables`: text wider than the display is
   * cut to the number of whole glyphs that fit.
   */
  function FitDisplay(s: string, width: int): string
    requires width > 0
  {
    if |s| * width > MatrixWidth then
      FitsIff(|s|, MatrixWidth, width);
      s[..MatrixWidth / width]
    else s
  }

  /** The clamped text fits, is a prefix, is the longest prefix that fits, and fitting text is untouched. */
  lemma FitDisplayFits(s: string, width: int)
    requires width > 0
    ensures |FitDisplay(s, width)| * width <= MatrixWidth
    ensures FitDisplay(s, width) <= s
    ensures |s| * width <= MatrixWidth ==> FitDisplay(s, width) == s
    ensures |s| * width > MatrixWidth ==> (|FitDisplay(s, width)| + 1) * width > MatrixWidth
  {
    var r := FitDisplay(s, width);
    if |s| * width > MatrixWidth {
      FitsIff(|r|, MatrixWidth, width);
      FitsIff(|r| + 1, MatrixWidth, width);
    }
  }

  /**
   * The centring branch of `parse_x`: `(64 - size * width) / 2` evaluated in
   * `size_t`, then returned as an `int`.
   */
  function CenterX(len: nat, width: nat): int
  {
    CInt.ToInt32(CInt.SizeSub(MatrixWidth, (len * width) % CInt.SizeModulus) / 2)
  }

  /** Text that fits is centred: the left margin is half the unused width, between 0 and 32. */
  lemma CenterXFits(len: nat, width: nat)
    requires len * width <= MatrixWidth
    ensures CenterX(len, width) == (MatrixWidth - len * width) / 2
    ensures 0 <= CenterX(len, width) <= MatrixWidth / 2
  {
    var n := len * width;
    assert n % CInt.SizeModulus == n;
    var half := CInt.SizeSub(MatrixWidth, n) / 2;
    assert half == (MatrixWidth - n) / 2 <= MatrixWidth / 2;
  }

  /**
   * Text wider than the display would wrap in `size_t`; after the narrowing to
   * `int` it lands at a negative x, half the overhang (rounded up) left of 0.
   */
  lemma CenterXOverhang(len: nat, width: nat)
    requires MatrixWidth < len * width < CInt.IntModulus
    ensures CenterX(len, width) == -((len * width - MatrixWidth + 1) / 2)
  {
    var n := len * width;
    var d := n - MatrixWidth;
    var c := (d + 1) / 2;
    assert n % CInt.SizeModulus == n;
    var u := CInt.SizeSub(MatrixWidth, n);
    assert u == CInt.SizeModulus - d;
    var half := u / 2;
    assert half == 0x7fff_ffff * CInt.IntModulus + (CInt.IntModulus - c);
    LowBits(0x7fff_ffff, CInt.IntModulus - c);
  }

  /** The low 32 bits of `q * 2^32 + r` are `r` when `0 <= r < 2^32`. */
  lemma LowBits(q: nat, r: nat)
    requires r < CInt.IntModulus
    ensures (q * CInt.IntModulus + r) % CInt.IntModulus == r
  {
  }

  /** Five medium glyphs (30 pixels) start at x = 17. */
  lemma CenterXExample()
    ensures CenterX(5, Width(Medium)) == 17
  {
    CenterXFits(5, 6);
  }

  /**
   * The other branch of `parse_x`: with an explicit x, text wider than the room
   * right of x is cut to `(64 - x) / width` glyphs. That count is a C++ `int`
   * division; a negative count becomes a huge `size_t` and `substr` keeps all.
   */
  function FitFrom(s: string, width: int, x: int): string
    requires width > 0
  {
    if |s| * width > MatrixWidth - x then
      var count := CInt.Div(MatrixWidth - x, width);
      if count < 0 then s
      else
        CountWithin(|s|, MatrixWidth - x, width);
        s[..count]
    else s
  }

  /**
   * With x on the display, the kept text fits in the room right of x, is the
   * longest prefix that does, and text that already fits is untouched.
   */
  lemma FitFromFits(s: string, width: int, x: int)
    requires width > 0 && 0 <= x <= MatrixWidth
    ensures |FitFrom(s, width, x)| * width <= MatrixWidth - x
    ensures FitFrom(s, width, x) <= s
    ensures |s| * width <= MatrixWidth - x ==> FitFrom(s, width, x) == s
    ensures |s| * width > MatrixWidth - x ==> (|FitFrom(s, width, x)| + 1) * width > MatrixWidth - x
  {
    var room: nat := MatrixWidth - x;
    if |s| * width > room {
      var q := WholeGlyphs(|s|, room, width);
      assert CInt.Div(room, width) == q;
      assert FitFrom(s, width, x) == s[..q];
    }
  }

  /**
   * `room / w` whole glyphs of width `w` fit in `room` pixels and one more does
   * not; when `n` glyphs do not fit, that count is below `n`.
   */
  lemma WholeGlyphs(n: nat, room: nat, w: int) returns (q: nat)
    requires w > 0 && n * w > room
    ensures q == room / w && q < n
    ensures q * w <= room && (q + 1) * w > room
  {
    q := room / w;
    FitsIff(n, room, w);
    FitsIff(q, room, w);
    FitsIff(q + 1, room, w);
  }

  /**
   * Past the right edge the truncating division decides: less than one glyph
   * past it the count is 0 and the text is emptied; further right the count is
   * negative and the text is kept whole.
   */
  lemma FitFromPastEdge(s: string, width: int, x: int)
    requires width > 0 && x > MatrixWidth && |s| > 0
    ensures x < MatrixWidth + width ==> FitFrom(s, width, x) == ""
    ensures x >= MatrixWidth + width ==> FitFrom(s, width, x) == s
  {
  }

  /** The working copy `update_clock` renders: the stored fields plus the rendered text. */
  class TextLine {
    const color: Rgb
    const fontSize: MatrixFont
    const xPos: int
    const yPos: int
    const text: string
    var parsedText: string

    constructor(color: Rgb, fontSize: MatrixFont, xPos: int, yPos: int, text: string)
      ensures this.color == color && this.fontSize == fontSize
      ensures this.xPos == xPos && this.yPos == yPos && this.text == text
      ensures parsedText == ""
    {
      this.color := color;
      this.fontSize := fontSize;
      this.xPos := xPos;
      this.yPos := yPos;
      this.text := text;
      parsedText := "";
    }

    /**
     * `parse_variables`: starts again from the raw text every time, runs the
     * token pass and clamps the result to the display width.
     */
    method ParseVariables(util: Variables.VariableUtility, now: Variables.Tm)
      modifies this
      ensures parsedText == FitDisplay(Template.Render(text, util.Snapshot(now)), Width(fontSize))
    {
      var w := Width(fontSize);
      var parsed := Template.Substitute(text, util.Snapshot(now));
      if |parsed| * w > MatrixWidth {
        FitsIff(|parsed|, MatrixWidth, w);
        parsed := parsed[..MatrixWidth / w];
      }
      parsedText := parsed;
    }

    /**
     * `parse_x`: the centred x for -1, leaving the text alone; otherwise the
     * configured x, cutting the text to the room right of it.
     */
    method ParseX() returns (x: int)
      modifies this
      ensures xPos == -1 ==> x == CenterX(|old(parsedText)|, Width(fontSize)) && parsedText == old(parsedText)
      ensures xPos != -1 ==> x == xPos && parsedText == FitFrom(old(parsedText), Width(fontSize), xPos)
    {
      var width := Width(fontSize);
      if xPos == -1 {
        x := CInt.ToInt32(CInt.SizeSub(MatrixWidth, (|parsedText| * width) % CInt.SizeModulus) / 2);
      } else {
        if |parsedText| * width > MatrixWidth - xPos {
          var count := CInt.Div(MatrixWidth - xPos, width);
          if count >= 0 {
            CountWithin(|parsedText|, MatrixWidth - xPos, width);
            parsedText := parsedText[..count];
          }
        }
        x := xPos;
      }
    }
  }

  /**
   * Once `parse_variables` has clamped the text, centring always lands on the
   * display: the x `parse_x` returns for -1 lies in [0, 32].
   */
  lemma CenteredAfterClamp(s: string, f: MatrixFont)
    ensures 0 <= CenterX(|FitDisplay(s, Width(f))|, Width(f)) <= MatrixWidth / 2
  {
    FitDisplayFits(s, Width(f));
    CenterXFits(|FitDisplay(s, Width(f))|, Width(f));
  }
}
