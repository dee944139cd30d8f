/**
 * The dashboard page's helpers in `public/script.js`: the channel search over
 * the list the channels route returned, the dropdown shown when the search box
 * gains focus, and `adjustColor`, which shifts each RGB component of a hex
 * colour and writes it back as hex.
 */
module ClientHelpers {
  import opened Common
  import opened Text
  import opened Collections
  import Dashboard

  type ChannelEntry = Dashboard.ChannelEntry

  // ---------------------------------------------------------------------------
  // channel search

  /** The search term as `filterChannels` uses it: lower-cased, then trimmed. */
  function SearchTerm(searchTerm: string): string {
    Trim(Lower(searchTerm))
  }

  /** The lower-cased channel name or guild name contains the term. */
  predicate MatchesTerm(c: ChannelEntry, term: string) {
    Contains(Lower(c.name), term) || Contains(Lower(c.guild), term)
  }

  /** `filterChannels`: every channel for a blank term, otherwise those that match it, in order. */
  function FilterChannels(allChannels: seq<ChannelEntry>, searchTerm: string): (r: seq<ChannelEntry>)
    ensures SearchTerm(searchTerm) == [] ==> r == allChannels
    ensures |r| <= |allChannels|
  {
    var term := SearchTerm(searchTerm);
    if term == [] then allChannels
    else Filter(allChannels, (c: ChannelEntry) => MatchesTerm(c, term))
  }

  /** The result keeps the order of the channel list: it is a subsequence of it. */
  lemma FilterChannelsKeepsOrder(allChannels: seq<ChannelEntry>, searchTerm: string)
    ensures Subseq(FilterChannels(allChannels, searchTerm), allChannels)
  {
    var term := SearchTerm(searchTerm);
    if term == [] {
      SubseqReflexive(allChannels);
    } else {
      FilterSubseq(allChannels, (c: ChannelEntry) => MatchesTerm(c, term));
    }
  }

  /**
   * With a term that is not blank, a channel is returned exactly when it is in the
   * list and the term occurs somewhere in its lower-cased name or guild name.
   */
  lemma FilterChannelsMembership(allChannels: seq<ChannelEntry>, searchTerm: string, c: ChannelEntry)
    requires SearchTerm(searchTerm) != []
    ensures var term := SearchTerm(searchTerm);
      c in FilterChannels(allChannels, searchTerm) <==>
        c in allChannels
        && ((exists i :: OccursAt(Lower(c.name), term, i)) || (exists i :: OccursAt(Lower(c.guild), term, i)))
  {
    var term := SearchTerm(searchTerm);
    FilterMembership(allChannels, (e: ChannelEntry) => MatchesTerm(e, term));
    ContainsAt(Lower(c.name), term);
    ContainsAt(Lower(c.guild), term);
  }

  /**
   * Each channel entry occurs in the result as often as in the list when the term
   * is blank or it matches, and not at all otherwise.
   */
  lemma FilterChannelsMultiplicity(allChannels: seq<ChannelEntry>, searchTerm: string)
    ensures var term := SearchTerm(searchTerm);
      forall c :: multiset(FilterChannels(allChannels, searchTerm))[c]
                  == if term == [] || MatchesTerm(c, term) then multiset(allChannels)[c] else 0
  {
    var term := SearchTerm(searchTerm);
    if term != [] {
      FilterMultiset(allChannels, (e: ChannelEntry) => MatchesTerm(e, term));
    }
  }

  /** The search ignores case: a term and its lower-cased form find the same channels. */
  lemma FilterChannelsIgnoresCase(allChannels: seq<ChannelEntry>, searchTerm: string)
    ensures FilterChannels(allChannels, searchTerm) == FilterChannels(allChannels, Lower(searchTerm))
  {
    LowerIdempotent(searchTerm);
  }

  const DropdownLimit: nat := 20

  /**
   * The focus handler: with text in the box and no channel chosen, the search
   * results; with an empty box, the first 20 channels; otherwise the dropdown is
   * left as it is (`None`).
   */
  function OnFocus(allChannels: seq<ChannelEntry>, boxValue: string, hasSelection: bool)
    : (r: Option<seq<ChannelEntry>>)
    ensures boxValue != "" && !hasSelection ==> r == Some(FilterChannels(allChannels, boxValue))
    ensures boxValue != "" && hasSelection ==> r.None?
    ensures boxValue == "" ==> r.Some? && |r.value| <= DropdownLimit
    ensures boxValue == "" ==> |r.value| == if |allChannels| < DropdownLimit then |allChannels| else DropdownLimit
    ensures boxValue == "" ==> forall i :: 0 <= i < |r.value| ==> r.value[i] == allChannels[i]
  {
    if boxValue != "" && !hasSelection then Some(FilterChannels(allChannels, boxValue))
    else if boxValue == "" then
      Some(if |allChannels| <= DropdownLimit then allChannels else allChannels[..DropdownLimit])
    else None
  }

  // ---------------------------------------------------------------------------
  // adjustColor

  function Clamp(n: int): (r: int)
    ensures 0 <= r <= 255
    ensures 0 <= n <= 255 ==> r == n
    ensures n < 0 ==> r == 0
    ensures n > 255 ==> r == 255
  {
    if n < 0 then 0 else if n > 255 then 255 else n
  }

  const TwoTo32: int := 0x1_0000_0000
  const TwoTo31: int := 0x8000_0000

  /** The 32-bit signed integer the bitwise operators work on (ToInt32). */
  function ToInt32(x: int): (r: int)
    ensures -TwoTo31 <= r < TwoTo31
    ensures (r - x) % TwoTo32 == 0
    ensures 0 <= x < TwoTo31 ==> r == x
  {
    (x + TwoTo31) % TwoTo32 - TwoTo31
  }

  /** Position `i` holds the first `#` of `s`. */
  predicate FirstHashAt(s: string, i: int) {
    0 <= i < |s| && s[i] == '#' && '#' !in s[..i]
  }

  /** `s.replace('#', '')`: removes the first `#`, if any. */
  function RemoveFirstHash(s: string): (r: string)
    ensures '#' !in s ==> r == s
    ensures forall i :: FirstHashAt(s, i) ==> r == s[..i] + s[i + 1..]
    decreases |s|
  {
    if s == [] then []
    else if s[0] == '#' then s[1..]
    else
      var rest := RemoveFirstHash(s[1..]);
      forall i | FirstHashAt(s, i)
        ensures [s[0]] + rest == s[..i] + s[i + 1..]
      {
        FirstHashInTail(s, i);
      }
      [s[0]] + rest
  }

  /** A first `#` after the head is the first `#` of the tail, one position earlier. */
  lemma FirstHashInTail(s: string, i: nat)
    requires FirstHashAt(s, i) && s[0] != '#'
    ensures FirstHashAt(s[1..], i - 1)
    ensures s[..i] + s[i + 1..] == [s[0]] + (s[1..][..i - 1] + s[1..][i..])
  {
    assert s[1..][..i - 1] == s[1..i];
    assert s[..i] == [s[0]] + s[1..i];
    assert s[1..][i..] == s[i + 1..];
  }

  /**
   * The number the bit operations see: `parseInt(text, 16)`, where `NaN` (no
   * leading hex digit) acts as 0 under `>>` and `&`.
   */
  function ColorNumber(color: string): int {
    match ParseHex(RemoveFirstHash(color))
    case None => 0
    case Some(n) => n
  }

  /** `num >> 16`, `(num >> 8) & 0xFF` and `num & 0xFF`. */
  function Red(num: int): int { ToInt32(num) / 0x1_0000 }
  function Green(num: int): int { (ToInt32(num) / 0x100) % 0x100 }
  function Blue(num: int): int { ToInt32(num) % 0x100 }

  function ShiftedValue(num: int, amount: int): (v: nat)
    ensures v < 0x100_0000
  {
    Clamp(Red(num) + amount) * 0x1_0000 + Clamp(Green(num) + amount) * 0x100 + Clamp(Blue(num) + amount)
  }

  /** `adjustColor(color, amount)`. */
  function AdjustColor(color: string, amount: int): (r: string)
    ensures |r| == 7 && r[0] == '#'
    ensures forall i :: 1 <= i < 7 ==> IsLowerHexDigit(r[i])
  {
    var v := ShiftedValue(ColorNumber(color), amount);
    assert Pow(16, 6) == 0x100_0000;
    NatToRadixLength(v, 16, 6);
    "#" + PadStart(NatToRadix(v, 16), 6, '0')
  }

  /** The six digits of the result denote the shifted value. */
  lemma AdjustColorValue(color: string, amount: int)
    ensures AllDigits(AdjustColor(color, amount)[1..], 16)
    ensures RadixValue(AdjustColor(color, amount)[1..], 16) == ShiftedValue(ColorNumber(color), amount)
  {
    var v := ShiftedValue(ColorNumber(color), amount);
    var digits := NatToRadix(v, 16);
    assert AdjustColor(color, amount)[1..] == PadStart(digits, 6, '0');
    RadixRoundTrip(v, 16);
    LeadingZeros(digits, 6, 16);
  }

  /**
   * Each pair of hex digits of the result is one component, shifted by `amount`
   * and clamped to 0..255.
   */
  lemma AdjustColorComponents(color: string, amount: int)
    ensures var h := AdjustColor(color, amount);
      var num := ColorNumber(color);
      && AllDigits(h[1..3], 16) && AllDigits(h[3..5], 16) && AllDigits(h[5..7], 16)
      && RadixValue(h[1..3], 16) == Clamp(Red(num) + amount)
      && RadixValue(h[3..5], 16) == Clamp(Green(num) + amount)
      && RadixValue(h[5..7], 16) == Clamp(Blue(num) + amount)
  {
    var h := AdjustColor(color, amount);
    var num := ColorNumber(color);
    var cr, cg, cb := Clamp(Red(num) + amount), Clamp(Green(num) + amount), Clamp(Blue(num) + amount);
    AdjustColorValue(color, amount);
    assert ShiftedValue(num, amount) == cr * 0x1_0000 + cg * 0x100 + cb;
    ColorOfBytes(h, cr, cg, cb);
  }

  /** A colour whose six digits denote three bytes holds one byte per pair of digits. */
  lemma ColorOfBytes(h: string, cr: nat, cg: nat, cb: nat)
    requires |h| == 7 && AllDigits(h[1..], 16) && cr < 0x100 && cg < 0x100 && cb < 0x100
    requires RadixValue(h[1..], 16) == cr * 0x1_0000 + cg * 0x100 + cb
    ensures AllDigits(h[1..3], 16) && AllDigits(h[3..5], 16) && AllDigits(h[5..7], 16)
    ensures RadixValue(h[1..3], 16) == cr && RadixValue(h[3..5], 16) == cg && RadixValue(h[5..7], 16) == cb
  {
    var d := h[1..];
    DigitsOfBytes(d, cr, cg, cb);
    SliceOfSuffix(h, 1, 0, 2);
    SliceOfSuffix(h, 1, 2, 4);
    SliceOfSuffix(h, 1, 4, 6);
  }

  lemma SliceOfSuffix(s: string, i: nat, j: nat, k: nat)
    requires i <= |s| && j <= k <= |s| - i
    ensures s[i..][j..k] == s[i + j..i + k]
  {
  }

  /** Six digits denoting three bytes put together hold one byte per pair. */
  lemma DigitsOfBytes(d: string, cr: nat, cg: nat, cb: nat)
    requires |d| == 6 && AllDigits(d, 16) && cr < 0x100 && cg < 0x100 && cb < 0x100
    requires RadixValue(d, 16) == cr * 0x1_0000 + cg * 0x100 + cb
    ensures AllDigits(d[0..2], 16) && AllDigits(d[2..4], 16) && AllDigits(d[4..6], 16)
    ensures RadixValue(d[0..2], 16) == cr && RadixValue(d[2..4], 16) == cg && RadixValue(d[4..6], 16) == cb
  {
    PairsOfSix(d);
    BytesUnique(RadixValue(d[0..2], 16), RadixValue(d[2..4], 16), RadixValue(d[4..6], 16), cr, cg, cb);
  }

  /** Six hex digits are three two-digit bytes. */
  lemma PairsOfSix(d: string)
    requires |d| == 6 && AllDigits(d, 16)
    ensures AllDigits(d[0..2], 16) && AllDigits(d[2..4], 16) && AllDigits(d[4..6], 16)
    ensures RadixValue(d[0..2], 16) < 0x100 && RadixValue(d[2..4], 16) < 0x100 && RadixValue(d[4..6], 16) < 0x100
    ensures RadixValue(d, 16)
         == (RadixValue(d[0..2], 16) * 0x100 + RadixValue(d[2..4], 16)) * 0x100 + RadixValue(d[4..6], 16)
  {
    var r, g, b := d[0..2], d[2..4], d[4..6];
    assert d == (r + g) + b;
    assert AllDigits(r, 16) && AllDigits(g, 16) && AllDigits(b, 16) by {
      assert forall i :: 0 <= i < 2 ==> r[i] == d[i] && g[i] == d[i + 2] && b[i] == d[i + 4];
    }
    PowSixteenSquared();
    RadixValueAppend(r, g, 16);
    RadixValueAppend(r + g, b, 16);
    RadixValueBound(r, 16);
    RadixValueBound(g, 16);
    RadixValueBound(b, 16);
  }

  lemma PowSixteenSquared()
    ensures Pow(16, 2) == 0x100
  {
    assert Pow(16, 1) == 16;
  }

  /** Three bytes are determined by the number they make. */
  lemma BytesUnique(vr: nat, vg: nat, vb: nat, cr: nat, cg: nat, cb: nat)
    requires vr < 0x100 && vg < 0x100 && vb < 0x100 && cr < 0x100 && cg < 0x100 && cb < 0x100
    requires (vr * 0x100 + vg) * 0x100 + vb == cr * 0x1_0000 + cg * 0x100 + cb
    ensures vr == cr && vg == cg && vb == cb
  {
    Regroup(cr, cg, cb);
    DivModUnique(vr * 0x100 + vg, vb, cr * 0x100 + cg, cb, 0x100);
    DivModUnique(vr, vg, cr, cg, 0x100);
  }

  lemma Regroup(a: int, b: int, c: int)
    ensures a * 0x1_0000 + b * 0x100 + c == (a * 0x100 + b) * 0x100 + c
  {
  }

  /** Six hexadecimal digits, in either case. */
  predicate IsHexColor(color: string) {
    |color| == 7 && color[0] == '#' && forall i :: 1 <= i < 7 ==> DigitValue(color[i]) < 16
  }

  /** Lower-casing a hexadecimal digit gives the lower-case digit of the same value. */
  lemma LowerHexDigit(c: char)
    requires DigitValue(c) < 16
    ensures IsLowerHexDigit(LowerChar(c)) && DigitValue(LowerChar(c)) == DigitValue(c)
  {
  }

  lemma {:induction false} LowerKeepsValue(s: string)
    requires AllDigits(s, 16)
    ensures AllDigits(Lower(s), 16) && RadixValue(Lower(s), 16) == RadixValue(s, 16)
    ensures forall i :: 0 <= i < |s| ==> IsLowerHexDigit(Lower(s)[i])
    decreases |s|
  {
    forall i | 0 <= i < |s| ensures IsLowerHexDigit(Lower(s)[i]) && DigitValue(Lower(s)[i]) == DigitValue(s[i]) {
      LowerHexDigit(s[i]);
    }
    if s != [] {
      var n := |s| - 1;
      assert Lower(s)[..n] == Lower(s[..n]);
      LowerKeepsValue(s[..n]);
    }
  }

  /** Shifting by 0 takes a six-digit colour to its lower-case form. */
  lemma AdjustByZero(color: string)
    requires IsHexColor(color)
    ensures AdjustColor(color, 0) == Lower(color)
  {
    ZeroShiftValue(color);
    LowerColorValue(color);
    SameColor(AdjustColor(color, 0), Lower(color));
  }

  /** Shifting by 0 keeps the value of the six digits. */
  lemma ZeroShiftValue(color: string)
    requires IsHexColor(color)
    ensures AllDigits(color[1..], 16) && AllDigits(AdjustColor(color, 0)[1..], 16)
    ensures RadixValue(AdjustColor(color, 0)[1..], 16) == RadixValue(color[1..], 16)
  {
    var x := HexColorNumber(color);
    ShiftByZero(x);
    AdjustColorValue(color, 0);
  }

  /** Lower-casing a colour gives `#` and six lower-case digits of the same value. */
  lemma LowerColorValue(color: string)
    requires IsHexColor(color)
    ensures var b := Lower(color);
      && |b| == 7 && b[0] == '#'
      && (forall i :: 1 <= i < 7 ==> IsLowerHexDigit(b[i]))
      && AllDigits(b[1..], 16) && RadixValue(b[1..], 16) == RadixValue(color[1..], 16)
  {
    var six := color[1..];
    var b := Lower(color);
    assert AllDigits(six, 16);
    LowerOfColor(color);
    LowerKeepsValue(six);
    assert forall i :: 1 <= i < 7 ==> b[i] == Lower(six)[i - 1];
  }

  lemma LowerOfColor(color: string)
    requires |color| == 7 && color[0] == '#'
    ensures Lower(color)[0] == '#' && Lower(color)[1..] == Lower(color[1..])
  {
  }

  /** Two `#`-prefixed strings of six lower-case digits with the same value are equal. */
  lemma SameColor(a: string, b: string)
    requires |a| == 7 && |b| == 7 && a[0] == '#' && b[0] == '#'
    requires forall i :: 1 <= i < 7 ==> IsLowerHexDigit(a[i]) && IsLowerHexDigit(b[i])
    requires AllDigits(a[1..], 16) && AllDigits(b[1..], 16)
    requires RadixValue(a[1..], 16) == RadixValue(b[1..], 16)
    ensures a == b
  {
    RadixInjective(a[1..], b[1..], 16);
    assert a == [a[0]] + a[1..] && b == [b[0]] + b[1..];
  }

  /** The number of a six-digit colour is the value of its digits, below 2 to the 24. */
  lemma HexColorNumber(color: string) returns (x: nat)
    requires IsHexColor(color)
    ensures AllDigits(color[1..], 16) && x == RadixValue(color[1..], 16)
    ensures ColorNumber(color) == x && x < 0x100_0000
  {
    var six := color[1..];
    assert AllDigits(six, 16);
    assert RemoveFirstHash(color) == six;
    HexPrefixAll(six);
    x := RadixValue(six, 16);
    RadixValueBound(six, 16);
    assert Pow(16, 6) == 0x100_0000;
  }

  /** Shifting a 24-bit number by 0 gives it back. */
  lemma ShiftByZero(x: int)
    requires 0 <= x < 0x100_0000
    ensures ShiftedValue(x, 0) == x
  {
    assert ToInt32(x) == x;
    SplitColor(x);
  }

  /** A number below 2 to the 24 is its three bytes put back together. */
  lemma SplitColor(x: int)
    requires 0 <= x < 0x100_0000
    ensures x / 0x1_0000 < 0x100
    ensures x == (x / 0x1_0000) * 0x1_0000 + ((x / 0x100) % 0x100) * 0x100 + x % 0x100
  {
    var q := x / 0x100;
    assert x == q * 0x100 + x % 0x100;
    assert q == (q / 0x100) * 0x100 + q % 0x100;
    assert q / 0x100 == x / 0x1_0000;
  }

  lemma {:induction false} HexPrefixAll(s: string)
    requires AllDigits(s, 16)
    ensures HexPrefix(s) == s
    decreases |s|
  {
    if s != [] {
      HexPrefixAll(s[1..]);
      assert [s[0]] + s[1..] == s;
    }
  }
}
