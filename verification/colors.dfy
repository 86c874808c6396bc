/** The sixteen wool colours, their names and their palette entries. */
module Colors {
  import opened Wrappers

  /** An 8-bit channel value. */
  newtype byte = x: int | 0 <= x < 256

  datatype RGBA = RGBA(r: byte, g: byte, b: byte, a: byte)

  /** The sixteen constants, declared in the order of their integer codes. */
  datatype Color =
    | White | Orange | Magenta | LightBlue | Yellow | Lime | Pink | Gray
    | LightGray | Cyan | Purple | Blue | Brown | Green | Red | Black

  /** The integer code of a constant: its position in the declaration. */
  function Code(c: Color): (n: int)
    ensures 0 <= n < 16
  {
    match c
    case White => 0
    case Orange => 1
    case Magenta => 2
    case LightBlue => 3
    case Yellow => 4
    case Lime => 5
    case Pink => 6
    case Gray => 7
    case LightGray => 8
    case Cyan => 9
    case Purple => 10
    case Blue => 11
    case Brown => 12
    case Green => 13
    case Red => 14
    case Black => 15
  }

  /** The constant with integer code n, if there is one. */
  function FromCode(n: int): (r: Option<Color>)
    ensures r.Some? <==> 0 <= n < 16
  {
    if n == 0 then Some(White)
    else if n == 1 then Some(Orange)
    else if n == 2 then Some(Magenta)
    else if n == 3 then Some(LightBlue)
    else if n == 4 then Some(Yellow)
    else if n == 5 then Some(Lime)
    else if n == 6 then Some(Pink)
    else if n == 7 then Some(Gray)
    else if n == 8 then Some(LightGray)
    else if n == 9 then Some(Cyan)
    else if n == 10 then Some(Purple)
    else if n == 11 then Some(Blue)
    else if n == 12 then Some(Brown)
    else if n == 13 then Some(Green)
    else if n == 14 then Some(Red)
    else if n == 15 then Some(Black)
    else None
  }

  /** The display name of each constant. */
  function Name(c: Color): string {
    match c
    case White => "White"
    case Orange => "Orange"
    case Magenta => "Magenta"
    case LightBlue => "Light Blue"
    case Yellow => "Yellow"
    case Lime => "Lime"
    case Pink => "Pink"
    case Gray => "Gray"
    case LightGray => "Light Gray"
    case Cyan => "Cyan"
    case Purple => "Purple"
    case Blue => "Blue"
    case Brown => "Brown"
    case Green => "Green"
    case Red => "Red"
    case Black => "Black"
  }

  /** `Color.String` on any integer: the constant's name, or "Unknown". */
  function String(n: int): (s: string)
    ensures s == "Unknown" <==> !(0 <= n < 16)
  {
    match FromCode(n)
    case Some(c) => NameNotUnknown(c); Name(c)
    case None => "Unknown"
  }

  /** The `Colors` table. */
  function Palette(c: Color): (p: RGBA)
    ensures p.a == 255
  {
    match c
    case White => RGBA(255, 255, 255, 255)
    case Orange => RGBA(216, 127, 51, 255)
    case Magenta => RGBA(178, 76, 216, 255)
    case LightBlue => RGBA(102, 153, 216, 255)
    case Yellow => RGBA(229, 229, 51, 255)
    case Lime => RGBA(127, 204, 25, 255)
    case Pink => RGBA(242, 127, 165, 255)
    case Gray => RGBA(76, 76, 76, 255)
    case LightGray => RGBA(153, 153, 153, 255)
    case Cyan => RGBA(76, 127, 153, 255)
    case Purple => RGBA(127, 63, 178, 255)
    case Blue => RGBA(51, 76, 178, 255)
    case Brown => RGBA(102, 76, 51, 255)
    case Green => RGBA(102, 127, 51, 255)
    case Red => RGBA(153, 51, 51, 255)
    case Black => RGBA(25, 25, 25, 255)
  }

  /** `Color.ToRGBA`: the table entry, or the zero RGBA for a code missing from the table. */
  function ToRGBA(n: int): (p: RGBA)
    ensures p.a == 255 <==> 0 <= n < 16
    ensures !(0 <= n < 16) ==> p == RGBA(0, 0, 0, 0)
  {
    match FromCode(n)
    case Some(c) => Palette(c)
    case None => RGBA(0, 0, 0, 0)
  }

  lemma NameNotUnknown(c: Color)
    ensures Name(c) != "Unknown"
  {
  }

  /** Codes and constants correspond one to one. */
  lemma CodeRoundTrip(c: Color, n: int)
    ensures FromCode(Code(c)) == Some(c)
    ensures FromCode(n) == Some(c) ==> Code(c) == n
  {
  }

  /** Distinct constants have distinct names. */
  lemma NameInjective(c: Color, d: Color)
    requires Name(c) == Name(d)
    ensures c == d
  {
  }

  /** Only the two "Light" colours have a space in their names. */
  lemma NameSpaces(c: Color)
    ensures ' ' in Name(c) <==> c == LightBlue || c == LightGray
  {
    if c == LightBlue {
      assert Name(c)[5] == ' ';
    } else if c == LightGray {
      assert Name(c)[5] == ' ';
    }
  }

  /** Every listed colour is in the table, fully opaque. */
  lemma PaletteComplete(c: Color)
    ensures ToRGBA(Code(c)) == Palette(c)
    ensures ToRGBA(Code(c)).a == 255
  {
    CodeRoundTrip(c, Code(c));
  }
}
