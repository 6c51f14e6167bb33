/** The four chart themes. Only what the model's logic reads is kept: the
    identifier and its labels, the marker palette, whether name tags use the
    pixel font and at what pixel size, the button style and the overlay.
    Colours are opaque: a colour is identified by its theme and palette slot. */
module Theme {

  datatype ThemeID = ZxSpectrum | Victorian | Chalkboard | Corporate

  function RawValue(id: ThemeID): string
  {
    match id
    case ZxSpectrum => "8-BIT"
    case Victorian => "VICTORIAN"
    case Chalkboard => "CHALKBOARD"
    case Corporate => "CORPORATE"
  }

  function Emoji(id: ThemeID): string
  {
    match id
    case ZxSpectrum => "\U{1F47E}"
    case Victorian => "\U{1F3DB}"
    case Chalkboard => "\U{1F34E}"
    case Corporate => "\U{1F4CA}"
  }

  /** The picker label: emoji, one space, raw value. */
  function DisplayName(id: ThemeID): (r: string)
    ensures |r| == |Emoji(id)| + 1 + |RawValue(id)|
  {
    Emoji(id) + " " + RawValue(id)
  }

  /** The label is the emoji, a space and the raw value, and different
      themes get different labels. */
  lemma DisplayNameParts(a: ThemeID, b: ThemeID)
    ensures DisplayName(a)[..|Emoji(a)|] == Emoji(a)
    ensures DisplayName(a)[|Emoji(a)|] == ' '
    ensures DisplayName(a)[|Emoji(a)| + 1..] == RawValue(a)
    ensures a != b ==> DisplayName(a) != DisplayName(b)
  {
    var da, db := DisplayName(a), DisplayName(b);
    assert da == Emoji(a) + [' '] + RawValue(a);
    assert da[..|Emoji(a)|] == Emoji(a);
    assert da[|Emoji(a)| + 1..] == RawValue(a);
    if a != b {
      assert |Emoji(a)| == 1 && |Emoji(b)| == 1;
      assert da[0] != db[0];
    }
  }

  datatype ThemeOverlay = NoOverlay | CrtScanlines

  /** An opaque colour: palette slot `slot` of theme `theme`. */
  datatype Color = PaletteColor(theme: ThemeID, slot: nat)

  datatype ChartTheme = ChartTheme(
    id: ThemeID,
    markerColors: seq<Color>,
    usePixelFont: bool,
    pixelFontSize: real,
    squareBorders: bool,
    bracketButtons: bool,
    overlay: ThemeOverlay)

  /** Every palette holds eight colours. */
  function Palette(id: ThemeID): (p: seq<Color>)
    ensures |p| == 8
  {
    seq(8, i requires 0 <= i < 8 => PaletteColor(id, i))
  }

  /** The `ChartTheme.theme(for:)` factory. */
  function ThemeFor(id: ThemeID): (t: ChartTheme)
    ensures t.id == id
    ensures |t.markerColors| == 8
    ensures t.pixelFontSize > 0.0
  {
    match id
    case ZxSpectrum => ChartTheme(ZxSpectrum, Palette(ZxSpectrum), true, 3.0, true, true, CrtScanlines)
    case Victorian => ChartTheme(Victorian, Palette(Victorian), false, 3.0, false, false, NoOverlay)
    case Chalkboard => ChartTheme(Chalkboard, Palette(Chalkboard), false, 3.0, false, false, NoOverlay)
    case Corporate => ChartTheme(Corporate, Palette(Corporate), false, 3.0, false, false, NoOverlay)
  }

  /** Only the 8-bit theme uses the pixel font, bracket buttons, square
      borders and scanlines. */
  lemma OnlyZxIsRetro(id: ThemeID)
    ensures ThemeFor(id).usePixelFont <==> id == ZxSpectrum
    ensures ThemeFor(id).bracketButtons <==> id == ZxSpectrum
    ensures ThemeFor(id).squareBorders <==> id == ZxSpectrum
    ensures ThemeFor(id).overlay == CrtScanlines <==> id == ZxSpectrum
  {
  }

  /** `markerColor(at:)`: the palette cycles with the index. */
  function MarkerColor(theme: ChartTheme, index: int): (c: Color)
    requires |theme.markerColors| > 0 && index >= 0
    ensures c in theme.markerColors
    ensures index < |theme.markerColors| ==> c == theme.markerColors[index]
  {
    var n := |theme.markerColors|;
    assert index < n ==> index % n == index by {
      if index < n { ModUnique(index, n, 0, index); }
    }
    theme.markerColors[index % n]
  }

  /** Palette cycling has the palette size as its period. */
  lemma MarkerColorPeriodic(theme: ChartTheme, index: int)
    requires |theme.markerColors| > 0 && index >= 0
    ensures MarkerColor(theme, index + |theme.markerColors|) == MarkerColor(theme, index)
  {
    var n := |theme.markerColors|;
    var q := index / n;
    assert index == q * n + index % n;
    assert index + n == (q + 1) * n + index % n;
    ModUnique(index + n, n, q + 1, index % n);
  }

  lemma MulAtLeast(d: int, n: int)
    requires d >= 1 && n > 0
    ensures d * n >= n
  {
    assert d * n == (d - 1) * n + n;
  }

  /** Euclidean division has a unique remainder. */
  lemma ModUnique(a: int, n: int, q: int, r: int)
    requires n > 0 && 0 <= r < n && a == q * n + r
    ensures a % n == r
  {
    var q2 := a / n;
    var r2 := a % n;
    assert a == q2 * n + r2;
    var d := q - q2;
    assert d * n == q * n - q2 * n;
    assert d * n == r2 - r;
    if d >= 1 {
      MulAtLeast(d, n);
    } else if d <= -1 {
      MulAtLeast(-d, n);
    }
  }

  function AddText(theme: ChartTheme): string
  {
    if theme.bracketButtons then "[ADD]" else "Add"
  }

  function ShareText(theme: ChartTheme): string
  {
    if theme.bracketButtons then "[SHARE]" else "Share"
  }

  function RemoveText(theme: ChartTheme): string
  {
    if theme.bracketButtons then "[X]" else "×"
  }

  /** The three button labels depend on `bracketButtons` alone, and the two
      styles never coincide. */
  lemma ButtonTextsFollowBrackets(a: ChartTheme, b: ChartTheme)
    ensures a.bracketButtons == b.bracketButtons ==>
              AddText(a) == AddText(b) && ShareText(a) == ShareText(b) && RemoveText(a) == RemoveText(b)
    ensures a.bracketButtons != b.bracketButtons ==>
              AddText(a) != AddText(b) && ShareText(a) != ShareText(b) && RemoveText(a) != RemoveText(b)
  {
  }
}
