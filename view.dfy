/** The debugging view helpers of player/view.hpp: screen regions, colour
    interpolation, the id-to-colour palette and its text colours, and the
    fixed-width cell labels. Terminal output itself is not modelled. */
module View {
  import opened Common

  /** `Region`: the inclusive rectangle xmin..xmax by ymin..ymax. */
  datatype Region = Region(xmin: int, ymin: int, xmax: int, ymax: int)

  function Width(r: Region): int
  {
    r.xmax - r.xmin + 1
  }

  function Height(r: Region): int
  {
    r.ymax - r.ymin + 1
  }

  /** The values `for (x = lo; x <= hi; x++)` visits, in order. */
  function Span(lo: int, hi: int): seq<int>
    decreases hi - lo
  {
    if lo > hi then [] else [lo] + Span(lo + 1, hi)
  }

  lemma {:induction false} SpanCounts(lo: int, hi: int)
    requires lo <= hi + 1
    ensures |Span(lo, hi)| == hi - lo + 1
    ensures forall k :: 0 <= k < |Span(lo, hi)| ==> Span(lo, hi)[k] == lo + k
    decreases hi - lo
  {
    if lo <= hi {
      SpanCounts(lo + 1, hi);
    }
  }

  /** `width()` and `height()` are the numbers of columns and rows the
      printing loops of a (non-inverted) region visit. */
  lemma RegionSizeCountsCells(r: Region)
    requires r.xmin <= r.xmax + 1 && r.ymin <= r.ymax + 1
    ensures |Span(r.xmin, r.xmax)| == Width(r)
    ensures |Span(r.ymin, r.ymax)| == Height(r)
  {
    SpanCounts(r.xmin, r.xmax);
    SpanCounts(r.ymin, r.ymax);
  }

  datatype Color = Color(r: int, g: int, b: int)

  function Clamp01(t: real): (c: real)
    ensures 0.0 <= c <= 1.0
    ensures 0.0 <= t <= 1.0 ==> c == t
  {
    if t > 1.0 then 1.0 else if t < 0.0 then 0.0 else t
  }

  /** One channel of `interpolate`: `(int)(a*(1-t) + b*t)`. */
  function Mix(a: int, b: int, t: real): (m: int)
    requires 0.0 <= t <= 1.0
    ensures a <= b ==> a <= m <= b
    ensures b <= a ==> b <= m <= a
    ensures t == 0.0 ==> m == a
    ensures t == 1.0 ==> m == b
  {
    var v := a as real * (1.0 - t) + b as real * t;
    MixIsBetween(a, b, t, v);
    if a <= b then TruncStaysBetween(v, a, b); TruncReal(v)
    else TruncStaysBetween(v, b, a); TruncReal(v)
  }

  lemma MixIsBetween(a: int, b: int, t: real, v: real)
    requires 0.0 <= t <= 1.0 && v == a as real * (1.0 - t) + b as real * t
    ensures a <= b ==> a as real <= v <= b as real
    ensures b <= a ==> b as real <= v <= a as real
    ensures t == 0.0 ==> v == a as real
    ensures t == 1.0 ==> v == b as real
  {
    var d := b as real - a as real;
    assert v == a as real + d * t;
    if a <= b {
      ScaleStaysBetween(d, t);
      assert a as real <= v <= b as real;
    } else {
      ScaleStaysBetween(-d, t);
      assert (-d) * t == -(d * t);
      assert b as real <= v <= a as real;
    }
  }

  /** 0 <= d*t <= d for 0 <= t <= 1. */
  lemma ScaleStaysBetween(d: real, t: real)
    requires 0.0 <= d && 0.0 <= t <= 1.0
    ensures 0.0 <= d * t <= d
    ensures t == 0.0 ==> d * t == 0.0
    ensures t == 1.0 ==> d * t == d
  {
    assert d - d * t == d * (1.0 - t);
  }

  /** Truncating a double that lies between two ints stays between them,
      and an int converts back to itself. */
  lemma TruncStaysBetween(v: real, lo: int, hi: int)
    requires lo as real <= v <= hi as real
    ensures lo <= TruncReal(v) <= hi
    ensures v == lo as real ==> TruncReal(v) == lo
    ensures v == hi as real ==> TruncReal(v) == hi
  {
  }

  /** `interpolate(a, b, t)`: t is clamped into [0, 1] first, so at or below
      0 it gives `a`, at or above 1 it gives `b`, and in between every
      channel lies between those of `a` and `b`. */
  function Interpolate(a: Color, b: Color, t: real): (c: Color)
    ensures t <= 0.0 ==> c == a
    ensures t >= 1.0 ==> c == b
    ensures Between(c.r, a.r, b.r) && Between(c.g, a.g, b.g) && Between(c.b, a.b, b.b)
  {
    var tc := Clamp01(t);
    Color(Mix(a.r, b.r, tc), Mix(a.g, b.g, tc), Mix(a.b, b.b, tc))
  }

  predicate Between(v: int, a: int, b: int)
  {
    (a <= v <= b) || (b <= v <= a)
  }

  /** `bit(i, k)` is `(i >> k) & 1`: `>>` on a negative int is the
      arithmetic shift, i.e. halving rounded down, and `& 1` keeps the low
      bit of the two's-complement value, i.e. the remainder modulo 2.
      Defined here one halving at a time. */
  function Bit(i: int, k: nat): (b: int)
    ensures 0 <= b <= 1
    decreases k
  {
    if k == 0 then i % 2 else Bit(i / 2, k - 1)
  }

  /** Euclidean division is unique. */
  lemma DivModUnique(n: int, d: int, q: int, r: int)
    requires d > 0 && n == d * q + r && 0 <= r < d
    ensures n / d == q && n % d == r
  {
    var q', r' := n / d, n % d;
    assert d * (q - q') == r' - r;
    if q - q' >= 1 {
      ProductAtLeast(d, q - q');
    } else if q' - q >= 1 {
      ProductAtLeast(d, q' - q);
    }
  }

  lemma ProductAtLeast(d: int, k: int)
    requires d > 0 && k >= 1
    ensures d * k >= d
  {
    assert d * k == d * (k - 1) + d;
  }

  /** Halving, then dividing by `n`, is dividing by `2n`; likewise for the
      remainders. */
  lemma HalveThenDivide(i: int, n: int)
    requires n > 0
    ensures (i / 2) / n == i / (2 * n)
    ensures i % (2 * n) == i % 2 + 2 * ((i / 2) % n)
    ensures (i % (2 * n)) / 2 == (i / 2) % n
    ensures (i % (2 * n)) % 2 == i % 2
  {
    var a, b := i / 2, i % 2;
    var c, e := a / n, a % n;
    assert i == 2 * n * c + (2 * e + b);
    DivModUnique(i, 2 * n, c, 2 * e + b);
    DivModUnique(2 * e + b, 2, e, b);
  }

  /** `Bit` is the low bit of `i` shifted right by `k`. */
  lemma {:induction false} BitIsShiftedLowBit(i: int, k: nat)
    ensures Bit(i, k) == (i / Pow2(k)) % 2
    decreases k
  {
    if k > 0 {
      BitIsShiftedLowBit(i / 2, k - 1);
      HalveThenDivide(i, Pow2(k - 1));
    }
  }

  /** Bits 0 .. n-1 of `i` as a number: they are `i` modulo 2^n. */
  function LowBits(i: int, n: nat): int
    decreases n
  {
    if n == 0 then 0 else Bit(i, 0) + 2 * LowBits(i / 2, n - 1)
  }

  lemma {:induction false} LowBitsIsRemainder(i: int, n: nat)
    ensures LowBits(i, n) == i % Pow2(n)
    decreases n
  {
    if n > 0 {
      LowBitsIsRemainder(i / 2, n - 1);
      HalveThenDivide(i, Pow2(n - 1));
    }
  }

  /** The top bit of `LowBits`. */
  lemma {:induction false} LowBitsTop(i: int, n: nat)
    ensures LowBits(i, n + 1) == LowBits(i, n) + Pow2(n) * Bit(i, n)
    decreases n
  {
    if n > 0 {
      LowBitsTop(i / 2, n - 1);
      assert 2 * (Pow2(n - 1) * Bit(i / 2, n - 1)) == Pow2(n) * Bit(i, n);
    }
  }

  /** Bit k < n of `i` is bit k of `i mod 2^n`. */
  lemma {:induction false} BitOfRemainder(i: int, n: nat, k: nat)
    requires k < n
    ensures Bit(i, k) == Bit(i % Pow2(n), k)
    decreases k
  {
    HalveThenDivide(i, Pow2(n - 1));
    if k > 0 {
      BitOfRemainder(i / 2, n - 1, k - 1);
    }
  }

  /** One channel of `intToColor`: `(int)(255*c*0.25)` for a level c. */
  function Channel(c: int): int
  {
    TruncReal(255.0 * c as real * 0.25)
  }

  /** The four channel values the palette uses. */
  predicate IsLevel(v: int)
  {
    v == 63 || v == 127 || v == 191 || v == 255
  }

  /** The channel value of a level built from a low and a high bit. */
  function Level(lo: int, hi: int): int
  {
    Channel(lo + hi * 2 + 1)
  }

  /** `intToColor(i)`: red from bits 1 and 3, green from bits 2 and 4, blue
      from bits 0 and 5, each as a level 1..4 scaled to 63..255. */
  function IntToColor(i: int): (c: Color)
    ensures IsLevel(c.r) && IsLevel(c.g) && IsLevel(c.b)
  {
    LevelIsLevel(Bit(i, 1), Bit(i, 3));
    LevelIsLevel(Bit(i, 2), Bit(i, 4));
    LevelIsLevel(Bit(i, 0), Bit(i, 5));
    Color(Level(Bit(i, 1), Bit(i, 3)), Level(Bit(i, 2), Bit(i, 4)), Level(Bit(i, 0), Bit(i, 5)))
  }

  lemma ChannelLevels(c: int)
    requires 1 <= c <= 4
    ensures IsLevel(Channel(c)) && (Channel(c) + 1) / 64 == c
  {
    assert 255.0 * c as real * 0.25 == 63.75 * c as real;
  }

  /** The low and the high bit read back from a channel value. */
  function LowBit(v: int): int
  {
    ((v + 1) / 64 - 1) % 2
  }

  function HighBit(v: int): int
  {
    ((v + 1) / 64 - 1) / 2
  }

  /** A level is a palette value. */
  lemma LevelIsLevel(lo: int, hi: int)
    requires 0 <= lo <= 1 && 0 <= hi <= 1
    ensures IsLevel(Level(lo, hi))
  {
    ChannelLevels(lo + hi * 2 + 1);
  }

  /** Both bits of a level read back. */
  lemma LevelBits(lo: int, hi: int)
    requires 0 <= lo <= 1 && 0 <= hi <= 1
    ensures LowBit(Level(lo, hi)) == lo && HighBit(Level(lo, hi)) == hi
  {
    ChannelLevels(lo + hi * 2 + 1);
  }

  /** The inverse of the palette: reads the six bits back from the levels. */
  function ColorToId(c: Color): int
  {
    LowBit(c.b) + 2 * LowBit(c.r) + 4 * LowBit(c.g) + 8 * HighBit(c.r) + 16 * HighBit(c.g) + 32 * HighBit(c.b)
  }

  /** The colour of `i` encodes exactly its low six bits. */
  lemma ColorRoundTrip(i: int)
    ensures ColorToId(IntToColor(i)) == i % 64
  {
    BitsRoundTrip(Bit(i, 0), Bit(i, 1), Bit(i, 2), Bit(i, 3), Bit(i, 4), Bit(i, 5));
    LowSixBits(i);
  }

  /** The colour built from six bits reads back as the number they spell. */
  lemma BitsRoundTrip(b0: int, b1: int, b2: int, b3: int, b4: int, b5: int)
    requires 0 <= b0 <= 1 && 0 <= b1 <= 1 && 0 <= b2 <= 1
    requires 0 <= b3 <= 1 && 0 <= b4 <= 1 && 0 <= b5 <= 1
    ensures ColorToId(Color(Level(b1, b3), Level(b2, b4), Level(b0, b5)))
            == b0 + 2 * b1 + 4 * b2 + 8 * b3 + 16 * b4 + 32 * b5
  {
    LevelBits(b1, b3);
    LevelBits(b2, b4);
    LevelBits(b0, b5);
  }

  /** i mod 64 spelled out in its six bits. */
  lemma LowSixBits(i: int)
    ensures i % 64 == Bit(i, 0) + 2 * Bit(i, 1) + 4 * Bit(i, 2) + 8 * Bit(i, 3) + 16 * Bit(i, 4) + 32 * Bit(i, 5)
  {
    LowBitsIsRemainder(i, 6);
    assert Pow2(6) == 64;
    LowBitsTop(i, 0);
    LowBitsTop(i, 1);
    LowBitsTop(i, 2);
    LowBitsTop(i, 3);
    LowBitsTop(i, 4);
    LowBitsTop(i, 5);
  }

  /** Two ids get the same colour exactly when they agree on their low six
      bits; in particular the ids 0..63 all get different colours. */
  lemma SameColorIffSameLowBits(i: int, j: int)
    ensures IntToColor(i) == IntToColor(j) <==> i % 64 == j % 64
  {
    ColorRoundTrip(i);
    ColorRoundTrip(j);
    if i % 64 == j % 64 {
      SameLowBitsSameColor(i, j);
    }
  }

  lemma SameLowBitsSameColor(i: int, j: int)
    requires i % 64 == j % 64
    ensures IntToColor(i) == IntToColor(j)
  {
    SameLowBitsSameBits(i, j, 0);
    SameLowBitsSameBits(i, j, 1);
    SameLowBitsSameBits(i, j, 2);
    SameLowBitsSameBits(i, j, 3);
    SameLowBitsSameBits(i, j, 4);
    SameLowBitsSameBits(i, j, 5);
  }

  lemma SameLowBitsSameBits(i: int, j: int, k: nat)
    requires i % 64 == j % 64 && k < 6
    ensures Bit(i, k) == Bit(j, k)
  {
    assert Pow2(6) == 64;
    BitOfRemainder(i, 6, k);
    BitOfRemainder(j, 6, k);
  }

  /** One text channel of `colorsByID` on a bright background: darker. */
  function Darker(v: int): int
  {
    Max0(TruncReal(v as real * 0.7) - 50)
  }

  /** One text channel on a dark background: lighter. */
  function Lighter(v: int): int
  {
    Min255(TruncReal(v as real * 1.3) + 50)
  }

  function Max0(n: int): int
  {
    if n < 0 then 0 else n
  }

  function Min255(n: int): int
  {
    if n > 255 then 255 else n
  }

  /** The text colour `colorsByID` picks for background `col`. */
  function TextColor(col: Color): Color
  {
    if MaxChannel(col) > 128 then Color(Darker(col.r), Darker(col.g), Darker(col.b))
    else Color(Lighter(col.r), Lighter(col.g), Lighter(col.b))
  }

  function MaxChannel(c: Color): int
  {
    var m := if c.g < c.b then c.b else c.g;
    if c.r < m then m else c.r
  }

  /** Both text channels stay in 0..255; darkening lowers a lit channel and
      lightening raises one below full. */
  lemma DarkerAndLighterStayInRange(v: int)
    requires 0 <= v <= 255
    ensures 0 <= Darker(v) <= 255 && 0 <= Lighter(v) <= 255
    ensures 0 < v ==> Darker(v) < v
    ensures v < 255 ==> Lighter(v) > v
  {
    assert v as real * 0.7 <= 178.5 && v as real * 1.3 >= v as real;
  }

  /** Every text channel of an id's colour lies in 0..255, and text on a
      bright background is darker than it, text on a dark one lighter. */
  lemma TextColorInRange(i: int)
    ensures var c := IntToColor(i); var t := TextColor(c);
      && 0 <= t.r <= 255 && 0 <= t.g <= 255 && 0 <= t.b <= 255
      && (MaxChannel(c) > 128 ==> t.r < c.r && t.g < c.g && t.b < c.b)
      && (MaxChannel(c) <= 128 ==> t.r > c.r && t.g > c.g && t.b > c.b)
  {
    var c := IntToColor(i);
    DarkerAndLighterStayInRange(c.r);
    DarkerAndLighterStayInRange(c.g);
    DarkerAndLighterStayInRange(c.b);
  }

  /** The decimal digit of 0 <= d < 10. */
  function Digit(d: int): char
    requires 0 <= d < 10
  {
    "0123456789"[d]
  }

  function DigitValue(c: char): int
  {
    if '0' <= c <= '9' then c as int - '0' as int else 0
  }

  /** `to_string` of a non-negative int: its decimal digits. */
  function NatToString(n: nat): (s: seq<char>)
    ensures |s| >= 1
    ensures n < 10 <==> |s| == 1
    ensures 10 <= n < 100 <==> |s| == 2
    decreases n
  {
    if n < 10 then [Digit(n)] else NatToString(n / 10) + [Digit(n % 10)]
  }

  /** `to_string` of an int: a minus sign before negative numbers. */
  function IntToString(n: int): (s: seq<char>)
    ensures |s| >= 1
    ensures n < 0 ==> |s| >= 2 && s[0] == '-'
  {
    if n < 0 then "-" + NatToString(-n) else NatToString(n)
  }

  /** The integer `labels` lambda: the value capped at 99, right-aligned in
      two characters with a space on each side. */
  function Label(value: int): seq<char>
  {
    var str := if value < 99 then value else 99;
    " " + (if str < 10 then " " else "") + IntToString(str) + " "
  }

  /** For non-negative values the label is exactly four characters, spaces
      at both ends, and the middle two read back as the capped value. */
  lemma LabelIsFourWide(value: int)
    requires 0 <= value
    ensures var l := Label(value);
      && |l| == 4 && l[0] == ' ' && l[3] == ' '
      && (if l[1] == ' ' then 0 else DigitValue(l[1])) * 10 + DigitValue(l[2]) == if value < 99 then value else 99
  {
    var str := if value < 99 then value else 99;
    if str < 10 {
      assert IntToString(str) == [Digit(str)];
      assert Label(value) == [' ', ' ', Digit(str), ' '];
      DigitRoundTrip(str);
    } else {
      assert NatToString(str / 10) == [Digit(str / 10)];
      assert IntToString(str) == NatToString(str / 10) + [Digit(str % 10)];
      assert Label(value) == [' ', Digit(str / 10), Digit(str % 10), ' '];
      DigitRoundTrip(str / 10);
      DigitRoundTrip(str % 10);
    }
  }

  lemma DigitRoundTrip(d: int)
    requires 0 <= d < 10
    ensures Digit(d) != ' ' && DigitValue(Digit(d)) == d
  {
  }

  /** A negative value keeps its minus sign, so its label is wider than four
      characters and breaks the column layout. */
  lemma NegativeLabelIsWider(value: int)
    requires value < 0
    ensures |Label(value)| >= 5
  {
  }
}
