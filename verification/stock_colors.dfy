/**
 * The seven-entry colour palette shared by the chart and the embeds, and the
 * index lookups that wrap any integer index, negative ones included, onto it
 * with JavaScript's truncating remainder.
 */
module StockColors {

  datatype PaletteEntry = PaletteEntry(color: string, emoji: string, name: string)

  /** `STOCK_COLOR_PALETTE`, in order. */
  const Palette: seq<PaletteEntry> := [
    PaletteEntry("#89b4fa", "🔵", "青"),
    PaletteEntry("#a6e3a1", "🟢", "緑"),
    PaletteEntry("#f38ba8", "🔴", "赤"),
    PaletteEntry("#fab387", "🟠", "橙"),
    PaletteEntry("#cba6f7", "🟣", "紫"),
    PaletteEntry("#f9e2af", "🟡", "黄"),
    PaletteEntry("#74c7ec", "🟤", "茶")
  ]

  /** JavaScript's `a % n` for `n > 0`: the remainder takes the sign of `a`. */
  function JsRem(a: int, n: int): (r: int)
    requires n > 0
    ensures a >= 0 ==> 0 <= r < n
    ensures a < 0 ==> -n < r <= 0
  {
    if a >= 0 then a % n else -((-a) % n)
  }

  /** `((index % length) + length) % length`: the slot always lies in the palette and is the mathematical remainder. */
  function SafeIndex(index: int): (slot: int)
    ensures 0 <= slot < |Palette|
    ensures slot == index % |Palette|
  {
    var n := |Palette|;
    var r := JsRem(index, n);
    JsRem(r + n, n)
  }

  /** `getColorForIndex`. */
  function GetColorForIndex(index: int): (color: string)
    ensures color == Palette[index % |Palette|].color
  {
    Palette[SafeIndex(index)].color
  }

  /** `getEmojiForIndex`. */
  function GetEmojiForIndex(index: int): (emoji: string)
    ensures emoji == Palette[index % |Palette|].emoji
  {
    Palette[SafeIndex(index)].emoji
  }

  /** `STOCK_COLORS`: the palette's colours, in order. */
  function StockColors(): (colors: seq<string>)
    ensures |colors| == |Palette| == 7
    ensures forall i :: 0 <= i < |Palette| ==> colors[i] == GetColorForIndex(i)
  {
    seq(|Palette|, i requires 0 <= i < |Palette| => Palette[i].color)
  }

  predicate IsHexDigit(c: char) {
    '0' <= c <= '9' || 'a' <= c <= 'f' || 'A' <= c <= 'F'
  }

  /** Matches `^#[0-9a-f]{6}$`, case-insensitively. */
  predicate IsHexColor(s: string) {
    |s| == 7 && s[0] == '#' && forall i :: 1 <= i < 7 ==> IsHexDigit(s[i])
  }

  /** Every palette colour is a six-digit hex colour. */
  lemma PaletteColorsAreHex()
    ensures forall i :: 0 <= i < |StockColors()| ==> IsHexColor(StockColors()[i])
  {
    forall i | 0 <= i < |Palette|
      ensures IsHexColor(Palette[i].color)
    {
    }
  }

  /** Indices 0 to 6 pick the palette entries in order. */
  lemma InRangeIndexIsIdentity(index: int)
    requires 0 <= index < |Palette|
    ensures GetColorForIndex(index) == Palette[index].color
    ensures GetEmojiForIndex(index) == Palette[index].emoji
  {
  }

  /** Both lookups repeat every seven indices, in both directions. */
  lemma LookupsArePeriodic(index: int, k: int)
    ensures GetColorForIndex(index + 7 * k) == GetColorForIndex(index)
    ensures GetEmojiForIndex(index + 7 * k) == GetEmojiForIndex(index)
  {
    assert (index + 7 * k) % 7 == index % 7;
  }

  /** Index -1 wraps to the last entry. */
  lemma MinusOneIsLast()
    ensures GetColorForIndex(-1) == Palette[6].color
    ensures GetEmojiForIndex(-1) == Palette[6].emoji
  {
  }

  /** The colour and the emoji of an index come from the same palette entry. */
  lemma ColorAndEmojiShareSlot(index: int)
    ensures exists slot :: 0 <= slot < |Palette| && GetColorForIndex(index) == Palette[slot].color
                           && GetEmojiForIndex(index) == Palette[slot].emoji
  {
    var slot := SafeIndex(index);
    assert GetColorForIndex(index) == Palette[slot].color;
  }

  /** No two palette entries share an emoji or a colour. */
  lemma PaletteEntriesDistinct(i: int, j: int)
    requires 0 <= i < |Palette| && 0 <= j < |Palette| && i != j
    ensures Palette[i].emoji != Palette[j].emoji
    ensures Palette[i].color != Palette[j].color
  {
  }

  /** Two indices get the same emoji exactly when they are seven apart a whole number of times. */
  lemma SameEmojiIffSameSlot(i: int, j: int)
    ensures GetEmojiForIndex(i) == GetEmojiForIndex(j) <==> i % 7 == j % 7
  {
    if i % 7 != j % 7 {
      PaletteEntriesDistinct(i % 7, j % 7);
    }
  }
}
