/**
 * A store's colours made readable (WCAG 2.1, success criterion 1.4.3). Arithmetic is exact; the curve that turns a
 * channel into light is a parameter of which only its ends and its direction are used.
 */
module Branding {
  import opened Wrappers

  type Channel = n: int | 0 <= n <= 255

  datatype Rgb = Rgb(r: Channel, g: Channel, b: Channel)

  type Curve = int -> real

  /** From no light to full light, never falling. */
  predicate IsCurve(f: Curve) {
    f(0) == 0.0 && f(255) == 1.0 && forall x: Channel, y: Channel :: x <= y ==> f(x) <= f(y)
  }

  // ---------------------------------------------------------------- colours as text

  function DigitValue(c: char): Option<int> {
    if '0' <= c <= '9' then Some(c as int - '0' as int)
    else if 'a' <= c <= 'f' then Some(c as int - 'a' as int + 10)
    else if 'A' <= c <= 'F' then Some(c as int - 'A' as int + 10)
    else None
  }

  predicate IsHex(c: char) {
    DigitValue(c).Some?
  }

  predicate Valid(hex: string) {
    |hex| == 7 && hex[0] == '#' && forall i :: 1 <= i < 7 ==> IsHex(hex[i])
  }

  function Pair(a: char, b: char): Channel
    requires IsHex(a) && IsHex(b)
  {
    DigitValue(a).value * 16 + DigitValue(b).value
  }

  function ParseHex(hex: string): (c: Option<Rgb>)
    ensures c.Some? <==> Valid(hex)
  {
    if !Valid(hex) then None
    else Some(Rgb(Pair(hex[1], hex[2]), Pair(hex[3], hex[4]), Pair(hex[5], hex[6])))
  }

  function Digit(n: int): char
    requires 0 <= n < 16
  {
    if n < 10 then ('0' as int + n) as char else ('a' as int + n - 10) as char
  }

  /** The nearest whole channel, halves upward, kept in range. */
  function Round(v: real): Channel {
    var kept := if v < 0.0 then 0.0 else if v > 255.0 then 255.0 else v;
    (kept + 0.5).Floor
  }

  function TwoDigits(n: Channel): string {
    [Digit(n / 16), Digit(n % 16)]
  }

  function ToHex(r: real, g: real, b: real): string {
    "#" + TwoDigits(Round(r)) + TwoDigits(Round(g)) + TwoDigits(Round(b))
  }

  lemma DigitsRead(n: Channel)
    ensures IsHex(TwoDigits(n)[0]) && IsHex(TwoDigits(n)[1]) && Pair(TwoDigits(n)[0], TwoDigits(n)[1]) == n
  {
  }

  /** Writing a colour and reading it back gives the rounded colour. */
  lemma HexReadsBack(r: real, g: real, b: real)
    ensures ParseHex(ToHex(r, g, b)) == Some(Rgb(Round(r), Round(g), Round(b)))
  {
    DigitsRead(Round(r));
    DigitsRead(Round(g));
    DigitsRead(Round(b));
  }

  lemma RoundExact(n: Channel)
    ensures Round(n as real) == n
  {
  }

  // ---------------------------------------------------------------- light and contrast

  function Luminance(f: Curve, c: Rgb): real {
    0.2126 * f(c.r) + 0.7152 * f(c.g) + 0.0722 * f(c.b)
  }

  function Max(a: real, b: real): real {
    if a >= b then a else b
  }

  function Min(a: real, b: real): real {
    if a <= b then a else b
  }

  /** The brighter light over the darker; lights are never below zero, so the divisor is never zero. */
  function Ratio(l: real, m: real): real {
    var hi, lo := Max(l, m) + 0.05, Min(l, m) + 0.05;
    if lo == 0.0 then 1.0 else hi / lo
  }

  function Contrast(f: Curve, a: string, b: string): real {
    var x, y := ParseHex(a), ParseHex(b);
    if x == None || y == None then 1.0 else Ratio(Luminance(f, x.value), Luminance(f, y.value))
  }

  function Toward(x: Channel, y: Channel, t: real): real {
    x as real + (y as real - x as real) * t
  }

  function Mix(a: string, b: string, t: real): string {
    var x, y := ParseHex(a), ParseHex(b);
    if x == None || y == None then a
    else
      ToHex(Toward(x.value.r, y.value.r, t), Toward(x.value.g, y.value.g, t), Toward(x.value.b, y.value.b, t))
  }

  // ---------------------------------------------------------------- repairing a colour

  function Twentieths(k: nat): real {
    k as real / 20.0
  }

  /** The colours tried: the given one, then twenty steps to the target. */
  function Candidate(color: string, toward: string, k: nat): string {
    if k == 0 then color else Mix(color, toward, Twentieths(k))
  }

  /** Which candidates have enough contrast. */
  function Enough(f: Curve, color: string, bg: string, toward: string, min: real): nat -> bool {
    (k: nat) => Contrast(f, Candidate(color, toward, k), bg) >= min
  }

  /** The first of the candidates from `i` on with enough contrast, or the last of all. */
  function FirstEnough(enough: nat -> bool, i: nat): (k: nat)
    requires i <= 20
    ensures i <= k <= 20 && (forall j: nat :: i <= j < k ==> !enough(j)) && (k < 20 ==> enough(k))
    decreases 20 - i
  {
    if i < 20 && !enough(i) then FirstEnough(enough, i + 1) else i
  }

  function Repaired(f: Curve, color: string, bg: string, toward: string, min: real): string {
    Candidate(color, toward, FirstEnough(Enough(f, color, bg, toward, min), 0))
  }

  /** The loop: the given colour is `step(0)`; one step after another until it reads, at most twenty. */
  method StepUntilReads(enough: string -> bool, step: nat -> string) returns (c: string, k: nat)
    ensures k <= 20 && c == step(k) && (forall j: nat :: j < k ==> !enough(step(j))) && (k < 20 ==> enough(step(k)))
  {
    c := step(0);
    var i := 1;
    while i <= 20 && !enough(c)
      invariant 1 <= i <= 21 && c == step(i - 1)
      invariant forall j: nat :: j < i - 1 ==> !enough(step(j))
      decreases 21 - i
    {
      c := step(i);
      i := i + 1;
    }
    k := i - 1;
  }

  method EnsureContrast(f: Curve, color: string, bg: string, toward: string, min: real) returns (c: string)
    ensures c == Repaired(f, color, bg, toward, min)
  {
    var step := (k: nat) => Candidate(color, toward, k);
    var k: nat;
    c, k := StepUntilReads((c: string) => Contrast(f, c, bg) >= min, step);
    forall j: nat | j < k ensures !Enough(f, color, bg, toward, min)(j) {
      assert step(j) == Candidate(color, toward, j);
    }
    FirstEnoughIs(Enough(f, color, bg, toward, min), k);
  }

  lemma FirstEnoughIs(enough: nat -> bool, k: nat)
    requires k <= 20 && (forall j: nat :: j < k ==> !enough(j)) && (k < 20 ==> enough(k))
    ensures FirstEnough(enough, 0) == k
  {
    assert k < 20 ==> FirstEnough(enough, 0) <= k;
  }

  lemma FirstEnoughSucceeds(enough: nat -> bool, j: nat)
    requires j <= 20 && enough(j)
    ensures enough(FirstEnough(enough, 0))
  {
    var k := FirstEnough(enough, 0);
    assert k == 20 ==> j == 20;
  }

  /** The repair has enough contrast exactly when one of the colours on the way has. */
  lemma RepairMeans(f: Curve, color: string, bg: string, toward: string, min: real)
    ensures
      var enough := Enough(f, color, bg, toward, min);
      Contrast(f, Repaired(f, color, bg, toward, min), bg) >= min <==> exists j: nat :: j <= 20 && enough(j)
  {
    var enough := Enough(f, color, bg, toward, min);
    forall j: nat | j <= 20 && enough(j) ensures enough(FirstEnough(enough, 0)) { FirstEnoughSucceeds(enough, j); }
    assert enough(FirstEnough(enough, 0)) <==> Contrast(f, Repaired(f, color, bg, toward, min), bg) >= min;
  }

  /** The last step is the target itself. */
  lemma MixToEnd(color: string, toward: string)
    requires Valid(color) && Valid(toward)
    ensures ParseHex(Candidate(color, toward, 20)) == ParseHex(toward)
  {
    var x, y := ParseHex(color).value, ParseHex(toward).value;
    assert Twentieths(20) == 1.0;
    assert Toward(x.r, y.r, 1.0) == y.r as real && Toward(x.g, y.g, 1.0) == y.g as real
        && Toward(x.b, y.b, 1.0) == y.b as real;
    HexReadsBack(y.r as real, y.g as real, y.b as real);
    RoundExact(y.r);
    RoundExact(y.g);
    RoundExact(y.b);
  }

  /** A repair reaches any contrast that its target has. */
  lemma RepairReaches(f: Curve, color: string, bg: string, toward: string, min: real)
    requires Valid(color) && Valid(toward) && Contrast(f, toward, bg) >= min
    ensures Contrast(f, Repaired(f, color, bg, toward, min), bg) >= min
  {
    var enough := Enough(f, color, bg, toward, min);
    assert enough(20) by { MixToEnd(color, toward); }
    RepairMeans(f, color, bg, toward, min);
  }

  lemma RepairIsValid(f: Curve, color: string, bg: string, toward: string, min: real)
    requires Valid(color)
    ensures Valid(Repaired(f, color, bg, toward, min))
  {
    CandidateIsValid(color, toward, FirstEnough(Enough(f, color, bg, toward, min), 0));
  }

  lemma CandidateIsValid(color: string, toward: string, k: nat)
    requires Valid(color)
    ensures Valid(Candidate(color, toward, k))
  {
    if k > 0 { MixIsValid(color, toward, Twentieths(k)); }
  }

  lemma MixIsValid(a: string, b: string, t: real)
    requires Valid(a)
    ensures Valid(Mix(a, b, t))
  {
    if Valid(b) {
      var x, y := ParseHex(a).value, ParseHex(b).value;
      HexReadsBack(Toward(x.r, y.r, t), Toward(x.g, y.g, t), Toward(x.b, y.b, t));
    }
  }

  // ---------------------------------------------------------------- the theme

  const WHITE: string := "#FFFFFF"
  const BLACK: string := "#000000"
  const INK: string := "#111111"

  datatype Theme = Theme(
    primary: string, background: string, surface: string, text: string, textMuted: string, border: string)

  const DANGER: string := "#B42318"
  const SUCCESS: string := "#067647"

  /** A status colour, the tint behind it and the ring around it. */
  datatype Status = Status(colour: string, soft: string, ring: string)

  datatype Vars = Vars(
    text: string, muted: string, borderStrong: string, soft: string, primary: string, primaryHover: string,
    onPrimary: string, link: string, danger: Status, success: Status, disabledBg: string, disabledText: string)

  function TextOf(f: Curve, t: Theme): string {
    if Contrast(f, t.text, t.surface) >= 4.5 then t.text else INK
  }

  /** The label tried first: white, the text colour or the better ink. */
  function FirstLabel(f: Curve, text: string, primary: string): string {
    if Contrast(f, WHITE, primary) >= 4.5 then WHITE
    else if Contrast(f, text, primary) >= 4.5 then text
    else if Contrast(f, INK, primary) >= Contrast(f, WHITE, primary) then INK else WHITE
  }

  function ButtonOf(f: Curve, text: string, primary: string): (string, string) {
    var onPrimary := FirstLabel(f, text, primary);
    if Contrast(f, onPrimary, primary) < 4.5 then (Repaired(f, primary, WHITE, BLACK, 4.5), WHITE)
    else (primary, onPrimary)
  }

  function HoverOf(primary: string, onPrimary: string): string {
    if onPrimary == WHITE then Mix(primary, BLACK, 0.12) else Mix(primary, WHITE, 0.12)
  }

  /** Links take the primary where it reads on the surface. */
  function LinkOf(f: Curve, primary: string, text: string, surface: string): string {
    if Contrast(f, primary, surface) >= 4.5 then primary else text
  }

  method ButtonColours(f: Curve, text: string, store: string) returns (primary: string, onPrimary: string)
    ensures (primary, onPrimary) == ButtonOf(f, text, store)
  {
    primary := store;
    var ink := if Contrast(f, INK, primary) >= Contrast(f, WHITE, primary) then INK else WHITE;
    onPrimary :=
      if Contrast(f, WHITE, primary) >= 4.5 then WHITE else if Contrast(f, text, primary) >= 4.5 then text else ink;
    if Contrast(f, onPrimary, primary) < 4.5 {
      primary := EnsureContrast(f, primary, WHITE, BLACK, 4.5);
      onPrimary := WHITE;
    }
  }

  function SoftOf(t: Theme): string {
    Mix(t.surface, if t.background == t.surface then t.border else t.background, 0.55)
  }

  /** A status colour is darkened until it reads on the surface. */
  function StatusOf(f: Curve, colour: string, surface: string, ring: real): Status {
    Status(Repaired(f, colour, surface, BLACK, 4.5), Mix(surface, colour, 0.07), Mix(surface, colour, ring))
  }

  method StatusColours(f: Curve, colour: string, surface: string, ring: real) returns (s: Status)
    ensures s == StatusOf(f, colour, surface, ring)
  {
    var c := EnsureContrast(f, colour, surface, BLACK, 4.5);
    return Status(c, Mix(surface, colour, 0.07), Mix(surface, colour, ring));
  }

  method AuthThemeVars(f: Curve, t: Theme) returns (v: Vars)
    ensures v.text == TextOf(f, t) && (v.primary, v.onPrimary) == ButtonOf(f, v.text, t.primary)
    ensures v.primaryHover == HoverOf(v.primary, v.onPrimary) && v.link == LinkOf(f, v.primary, v.text, t.surface)
    ensures v.muted == Repaired(f, t.textMuted, t.surface, v.text, 4.5)
    ensures v.borderStrong == Repaired(f, Mix(t.border, v.text, 0.25), t.surface, v.text, 3.0)
    ensures v.soft == SoftOf(t)
    ensures v.danger == StatusOf(f, DANGER, t.surface, 0.35) && v.success == StatusOf(f, SUCCESS, t.surface, 0.3)
    ensures v.disabledBg == Mix(t.surface, v.text, 0.1)
    ensures v.disabledText == Repaired(f, Mix(t.surface, v.text, 0.45), v.disabledBg, v.text, 3.0)
  {
    var text := TextOf(f, t);
    var primary, onPrimary := ButtonColours(f, text, t.primary);
    var hover := HoverOf(primary, onPrimary);
    var muted := EnsureContrast(f, t.textMuted, t.surface, text, 4.5);
    var borderStrong := EnsureContrast(f, Mix(t.border, text, 0.25), t.surface, text, 3.0);
    var danger := StatusColours(f, DANGER, t.surface, 0.35);
    var success := StatusColours(f, SUCCESS, t.surface, 0.3);
    var disabledBg := Mix(t.surface, text, 0.1);
    var disabledText := EnsureContrast(f, Mix(t.surface, text, 0.45), disabledBg, text, 3.0);
    return Vars(text, muted, borderStrong, SoftOf(t), primary, hover, onPrimary, LinkOf(f, primary, text, t.surface),
                danger, success, disabledBg, disabledText);
  }

  // ---------------------------------------------------------------- more and less light

  predicate Darker(a: Rgb, b: Rgb) {
    a.r <= b.r && a.g <= b.g && a.b <= b.b
  }

  lemma LightRange(f: Curve, c: Rgb)
    requires IsCurve(f)
    ensures 0.0 <= Luminance(f, c) <= 1.0
  {
    assert f(0) <= f(c.r) <= f(255) && f(0) <= f(c.g) <= f(255) && f(0) <= f(c.b) <= f(255);
  }

  lemma DarkerLight(f: Curve, a: Rgb, b: Rgb)
    requires IsCurve(f) && Darker(a, b)
    ensures Luminance(f, a) <= Luminance(f, b)
  {
    assert f(a.r) <= f(b.r) && f(a.g) <= f(b.g) && f(a.b) <= f(b.b);
  }

  lemma RoundKeepsSide(n: Channel, v: real)
    ensures v <= n as real ==> Round(v) <= n
    ensures v >= n as real ==> Round(v) >= n
  {
  }

  lemma MixDarkens(primary: string)
    requires Valid(primary)
    ensures Valid(Mix(primary, BLACK, 0.12))
        && Darker(ParseHex(Mix(primary, BLACK, 0.12)).value, ParseHex(primary).value)
  {
    var x := ParseHex(primary).value;
    assert ParseHex(BLACK) == Some(Rgb(0, 0, 0));
    HexReadsBack(Toward(x.r, 0, 0.12), Toward(x.g, 0, 0.12), Toward(x.b, 0, 0.12));
    RoundKeepsSide(x.r, Toward(x.r, 0, 0.12));
    RoundKeepsSide(x.g, Toward(x.g, 0, 0.12));
    RoundKeepsSide(x.b, Toward(x.b, 0, 0.12));
  }

  lemma MixLightens(primary: string)
    requires Valid(primary)
    ensures Valid(Mix(primary, WHITE, 0.12))
        && Darker(ParseHex(primary).value, ParseHex(Mix(primary, WHITE, 0.12)).value)
  {
    var x := ParseHex(primary).value;
    assert ParseHex(WHITE) == Some(Rgb(255, 255, 255));
    HexReadsBack(Toward(x.r, 255, 0.12), Toward(x.g, 255, 0.12), Toward(x.b, 255, 0.12));
    RoundKeepsSide(x.r, Toward(x.r, 255, 0.12));
    RoundKeepsSide(x.g, Toward(x.g, 255, 0.12));
    RoundKeepsSide(x.b, Toward(x.b, 255, 0.12));
  }

  lemma QuotientGrows(hi: real, lo: real, hi2: real, lo2: real)
    requires 0.0 < lo2 <= lo <= hi <= hi2
    ensures hi / lo <= hi2 / lo2
  {
    assert hi / lo <= hi2 / lo;
    assert hi2 / lo * lo2 <= hi2;
  }

  /** More light above, less light below: more contrast. */
  lemma RatioGrows(l: real, m: real, l2: real, m2: real)
    requires 0.0 <= m2 <= m <= l <= l2
    ensures Ratio(l, m) <= Ratio(l2, m2) && Ratio(m, l) <= Ratio(m2, l2)
  {
    QuotientGrows(l + 0.05, m + 0.05, l2 + 0.05, m2 + 0.05);
  }

  lemma RatioAtLeast(hi: real, lo: real, k: real)
    requires 0.0 <= lo <= hi
    ensures Ratio(hi, lo) >= k <==> hi + 0.05 >= k * (lo + 0.05)
    ensures Ratio(lo, hi) == Ratio(hi, lo)
  {
    var q := (hi + 0.05) / (lo + 0.05);
    assert q * (lo + 0.05) == hi + 0.05;
  }

  // ---------------------------------------------------------------- the button

  /** The brightest colour. */
  lemma WhiteLight(f: Curve)
    requires IsCurve(f)
    ensures ParseHex(WHITE) == Some(Rgb(255, 255, 255)) && Luminance(f, Rgb(255, 255, 255)) == 1.0
    ensures ParseHex(BLACK) == Some(Rgb(0, 0, 0)) && Luminance(f, Rgb(0, 0, 0)) == 0.0
    ensures Contrast(f, BLACK, WHITE) >= 4.5
  {
    assert Ratio(0.0, 1.0) == 1.05 / 0.05;
  }

  /** A label that reads where white does not is darker than what it stands on. */
  lemma ReadableIsDarker(f: Curve, text: string, primary: string)
    requires IsCurve(f) && Valid(primary)
    requires Contrast(f, text, primary) >= 4.5 && Contrast(f, WHITE, primary) < 4.5
    ensures Valid(text) && Luminance(f, ParseHex(text).value) <= Luminance(f, ParseHex(primary).value)
  {
    WhiteLight(f);
    var x, y := ParseHex(text).value, ParseHex(primary).value;
    LightRange(f, x);
    LightRange(f, y);
    ReadableRatio(Luminance(f, x), Luminance(f, y));
  }

  lemma ReadableRatio(l: real, p: real)
    requires 0.0 <= l <= 1.0 && 0.0 <= p <= 1.0 && Ratio(l, p) >= 4.5 && Ratio(1.0, p) < 4.5
    ensures l <= p
  {
    RatioAtLeast(1.0, p, 4.5);
    if l > p { RatioAtLeast(l, p, 4.5); }
  }

  /** The label has contrast 4.5 on the derived primary exactly when the store's primary is a colour. */
  lemma LabelReads(f: Curve, text: string, primary: string)
    requires IsCurve(f)
    ensures
      var (p, onPrimary) := ButtonOf(f, text, primary);
      Contrast(f, onPrimary, p) >= 4.5 <==> Valid(primary)
    ensures Valid(primary) ==> Valid(ButtonOf(f, text, primary).0)
  {
    if Valid(primary) {
      WhiteLight(f);
      RepairReaches(f, primary, WHITE, BLACK, 4.5);
      RepairIsValid(f, primary, WHITE, BLACK, 4.5);
      ContrastSwaps(f, WHITE, Repaired(f, primary, WHITE, BLACK, 4.5));
    } else {
      NoColour(f, primary, WHITE, BLACK, 4.5);
    }
  }

  lemma ContrastSwaps(f: Curve, a: string, b: string)
    ensures Contrast(f, a, b) == Contrast(f, b, a)
  {
  }

  /** What is not a colour stays as it is. */
  lemma NoColour(f: Curve, color: string, bg: string, toward: string, min: real)
    requires !Valid(color)
    ensures Repaired(f, color, bg, toward, min) == color
  {
  }

  /** A colour that has the contrast already is not touched. */
  lemma RepairKeepsReadable(f: Curve, color: string, bg: string, toward: string, min: real)
    requires Contrast(f, color, bg) >= min
    ensures Repaired(f, color, bg, toward, min) == color
  {
    assert Enough(f, color, bg, toward, min)(0);
  }

  /**
   * The store's primary stays as it is exactly when white, the text colour or the ink reads on it; then the label is
   * the first of those that does.
   */
  lemma PrimaryStays(f: Curve, text: string, primary: string)
    requires IsCurve(f) && Valid(primary)
    ensures
      var (p, onPrimary) := ButtonOf(f, text, primary);
      && (p == primary <==>
            || Contrast(f, WHITE, primary) >= 4.5 || Contrast(f, text, primary) >= 4.5
            || Contrast(f, INK, primary) >= 4.5)
      && (p == primary ==>
            onPrimary == if Contrast(f, WHITE, primary) >= 4.5 then WHITE
                else if Contrast(f, text, primary) >= 4.5 then text else INK)
      && (p != primary ==> onPrimary == WHITE)
  {
    LabelReads(f, text, primary);
  }

  /** Relative luminance as WCAG 2.1 defines it: the shares of red, green and blue, and white over black 21 to 1. */
  lemma LightOfPrimaries(f: Curve)
    requires IsCurve(f)
    ensures Luminance(f, Rgb(255, 0, 0)) == 0.2126
    ensures Luminance(f, Rgb(0, 255, 0)) == 0.7152
    ensures Luminance(f, Rgb(0, 0, 255)) == 0.0722
    ensures Contrast(f, WHITE, BLACK) == 21.0
  {
    WhiteLight(f);
    assert Ratio(1.0, 0.0) == 1.05 / 0.05;
  }

  /** Contrast goes from 1, of a colour with itself, to 21. */
  lemma ContrastRange(f: Curve, a: string, b: string)
    requires IsCurve(f)
    ensures 1.0 <= Contrast(f, a, b) <= 21.0 && Contrast(f, a, a) == 1.0
  {
    if Valid(a) {
      LightRange(f, ParseHex(a).value);
      RatioRange(Luminance(f, ParseHex(a).value), Luminance(f, ParseHex(a).value));
      if Valid(b) {
        LightRange(f, ParseHex(b).value);
        RatioRange(Luminance(f, ParseHex(a).value), Luminance(f, ParseHex(b).value));
      }
    }
  }

  lemma RatioRange(l: real, m: real)
    requires 0.0 <= l <= 1.0 && 0.0 <= m <= 1.0
    ensures 1.0 <= Ratio(l, m) <= 21.0 && Ratio(l, l) == 1.0
  {
    QuotientRange(Max(l, m) + 0.05, Min(l, m) + 0.05);
    QuotientRange(l + 0.05, l + 0.05);
  }

  lemma QuotientRange(hi: real, lo: real)
    requires 0.0 < lo <= hi <= 21.0 * lo
    ensures 1.0 <= hi / lo <= 21.0 && (hi == lo ==> hi / lo == 1.0)
  {
    var q := hi / lo;
    assert q * lo == hi;
    QuotientBound(q, hi, lo);
  }

  lemma QuotientBound(q: real, hi: real, lo: real)
    requires q * lo == hi && 0.0 < lo <= hi <= 21.0 * lo
    ensures 1.0 <= q <= 21.0 && (hi == lo ==> q == 1.0)
  {
    Larger(q, 21.0, lo, hi, 21.0 * lo);
    Larger(1.0, q, lo, lo, hi);
    Larger(q, 1.0, lo, hi, lo);
  }

  lemma Larger(a: real, b: real, c: real, ac: real, bc: real)
    requires c > 0.0 && ac == a * c && bc == b * c
    ensures a > b ==> ac > bc
  {
    if a > b { assert (a - b) * c > 0.0; }
  }

  predicate Between(n: Channel, x: Channel, y: Channel) {
    x <= n <= y || y <= n <= x
  }

  /** A mix lies between its two colours, channel by channel, and its ends are the colours themselves. */
  lemma MixMeans(a: string, b: string, t: real)
    requires Valid(a) && Valid(b) && 0.0 <= t <= 1.0
    ensures Valid(Mix(a, b, t))
    ensures
      var x, y, m := ParseHex(a).value, ParseHex(b).value, ParseHex(Mix(a, b, t)).value;
      && Between(m.r, x.r, y.r) && Between(m.g, x.g, y.g) && Between(m.b, x.b, y.b)
      && (t == 0.0 ==> m == x) && (t == 1.0 ==> m == y)
  {
    var x, y := ParseHex(a).value, ParseHex(b).value;
    HexReadsBack(Toward(x.r, y.r, t), Toward(x.g, y.g, t), Toward(x.b, y.b, t));
    ChannelBetween(x.r, y.r, t);
    ChannelBetween(x.g, y.g, t);
    ChannelBetween(x.b, y.b, t);
  }

  lemma ChannelBetween(x: Channel, y: Channel, t: real)
    requires 0.0 <= t <= 1.0
    ensures Between(Round(Toward(x, y, t)), x, y)
    ensures t == 0.0 ==> Round(Toward(x, y, t)) == x
    ensures t == 1.0 ==> Round(Toward(x, y, t)) == y
  {
    TowardBetween(x, y, t);
    RoundBetween(x, y, Toward(x, y, t));
  }

  lemma TowardBetween(x: Channel, y: Channel, t: real)
    requires 0.0 <= t <= 1.0
    ensures x as real <= Toward(x, y, t) <= y as real || y as real <= Toward(x, y, t) <= x as real
    ensures t == 0.0 ==> Toward(x, y, t) == x as real
    ensures t == 1.0 ==> Toward(x, y, t) == y as real
  {
    var a, b, v := x as real, y as real, Toward(x, y, t);
    var d := b - a;
    var p := d * t;
    assert v == a + p;
    Scaled(d, t, p);
    StepBetween(a, b, d, p, v);
    if t == 0.0 { assert p == 0.0; }
    if t == 1.0 { assert p == d; }
  }

  /** Going on from one number by a part of the way to the other. */
  lemma StepBetween(a: real, b: real, d: real, p: real, v: real)
    requires d == b - a && v == a + p && (0.0 <= p <= d || d <= p <= 0.0)
    ensures a <= v <= b || b <= v <= a
  {
  }

  lemma RoundBetween(x: Channel, y: Channel, v: real)
    requires x as real <= v <= y as real || y as real <= v <= x as real
    ensures Between(Round(v), x, y) && (v == x as real ==> Round(v) == x) && (v == y as real ==> Round(v) == y)
  {
    RoundKeepsSide(x, v);
    RoundKeepsSide(y, v);
  }

  lemma Scaled(d: real, t: real, p: real)
    requires 0.0 <= t <= 1.0 && p == d * t
    ensures d >= 0.0 ==> 0.0 <= p <= d
    ensures d <= 0.0 ==> d <= p <= 0.0
  {
  }

  /** The soft ground lies between the surface and the background, or the border where those two are the same. */
  lemma SoftIsBetween(t: Theme)
    requires Valid(t.surface) && Valid(t.background) && Valid(t.border)
    ensures
      var s := ParseHex(t.surface).value;
      var other := ParseHex(if t.background == t.surface then t.border else t.background).value;
      && Valid(SoftOf(t))
      && var m := ParseHex(SoftOf(t)).value;
         Between(m.r, s.r, other.r) && Between(m.g, s.g, other.g) && Between(m.b, s.b, other.b)
  {
    MixMeans(t.surface, if t.background == t.surface then t.border else t.background, 0.55);
  }

  /** Hovering keeps or raises the label's contrast. */
  lemma HoverKeepsContrast(f: Curve, text: string, primary: string)
    requires IsCurve(f) && Valid(primary)
    ensures
      var (p, onPrimary) := ButtonOf(f, text, primary);
      Contrast(f, onPrimary, HoverOf(p, onPrimary)) >= Contrast(f, onPrimary, p) >= 4.5
  {
    LabelReads(f, text, primary);
    var (p, onPrimary) := ButtonOf(f, text, primary);
    if onPrimary == WHITE {
      WhiteOverDarker(f, p);
    } else {
      assert Contrast(f, WHITE, p) < 4.5;
      ReadableIsDarker(f, onPrimary, p);
      DarkerUnderLighter(f, p, onPrimary);
    }
  }

  lemma WhiteOverDarker(f: Curve, p: string)
    requires IsCurve(f) && Valid(p)
    ensures Contrast(f, WHITE, Mix(p, BLACK, 0.12)) >= Contrast(f, WHITE, p)
  {
    MixDarkens(p);
    WhiteLight(f);
    var x, y := ParseHex(p).value, ParseHex(Mix(p, BLACK, 0.12)).value;
    DarkerLight(f, y, x);
    LightRange(f, x);
    LightRange(f, y);
    RatioGrows(1.0, Luminance(f, x), 1.0, Luminance(f, y));
  }

  lemma DarkerUnderLighter(f: Curve, p: string, onPrimary: string)
    requires IsCurve(f) && Valid(p) && Valid(onPrimary)
    requires Luminance(f, ParseHex(onPrimary).value) <= Luminance(f, ParseHex(p).value)
    ensures Contrast(f, onPrimary, Mix(p, WHITE, 0.12)) >= Contrast(f, onPrimary, p)
  {
    MixLightens(p);
    var x, y, l := ParseHex(p).value, ParseHex(Mix(p, WHITE, 0.12)).value, ParseHex(onPrimary).value;
    DarkerLight(f, x, y);
    LightRange(f, l);
    RatioGrows(Luminance(f, x), Luminance(f, l), Luminance(f, y), Luminance(f, l));
  }

  // ---------------------------------------------------------------- text on the surface

  /** The text reads on the surface exactly when the store's text or the ink does, and then it is a colour. */
  lemma TextReads(f: Curve, t: Theme)
    ensures
      Contrast(f, TextOf(f, t), t.surface) >= 4.5 <==>
        Contrast(f, t.text, t.surface) >= 4.5 || Contrast(f, INK, t.surface) >= 4.5
    ensures Contrast(f, TextOf(f, t), t.surface) >= 4.5 ==> Valid(TextOf(f, t))
  {
  }

  /** Wherever the text reads, muted text reads too, the strong border stands out, and links read. */
  lemma SurfaceReads(f: Curve, t: Theme)
    requires Valid(t.textMuted) && Valid(t.border) && Contrast(f, TextOf(f, t), t.surface) >= 4.5
    ensures
      var text := TextOf(f, t);
      && Contrast(f, Repaired(f, t.textMuted, t.surface, text, 4.5), t.surface) >= 4.5
      && Contrast(f, Repaired(f, Mix(t.border, text, 0.25), t.surface, text, 3.0), t.surface) >= 3.0
    ensures
      var (p, _) := ButtonOf(f, TextOf(f, t), t.primary);
      Contrast(f, LinkOf(f, p, TextOf(f, t), t.surface), t.surface) >= 4.5
  {
    var text := TextOf(f, t);
    TextReads(f, t);
    RepairReaches(f, t.textMuted, t.surface, text, 4.5);
    MixIsValid(t.border, text, 0.25);
    RepairReaches(f, Mix(t.border, text, 0.25), t.surface, text, 3.0);
  }

  /** What reads already is left as the store chose it: its text, its muted text, and links in the primary colour. */
  lemma ReadableStays(f: Curve, t: Theme, primary: string)
    ensures Contrast(f, t.text, t.surface) >= 4.5 ==> TextOf(f, t) == t.text
    ensures
      Contrast(f, t.textMuted, t.surface) >= 4.5 ==>
        Repaired(f, t.textMuted, t.surface, TextOf(f, t), 4.5) == t.textMuted
    ensures
      LinkOf(f, primary, TextOf(f, t), t.surface)
        == if Contrast(f, primary, t.surface) >= 4.5 then primary else TextOf(f, t)
  {
    if Contrast(f, t.textMuted, t.surface) >= 4.5 {
      RepairKeepsReadable(f, t.textMuted, t.surface, TextOf(f, t), 4.5);
    }
  }

  /** Danger and success colours read on every surface that black reads on. */
  lemma StatusReads(f: Curve, colour: string, surface: string, ring: real)
    requires Valid(colour) && Contrast(f, BLACK, surface) >= 4.5
    ensures Contrast(f, StatusOf(f, colour, surface, ring).colour, surface) >= 4.5
  {
    RepairReaches(f, colour, surface, BLACK, 4.5);
  }

  /** Disabled text stands out on its own ground wherever the text does. */
  lemma DisabledReads(f: Curve, surface: string, text: string)
    requires Valid(surface) && Valid(text) && Contrast(f, text, Mix(surface, text, 0.1)) >= 3.0
    ensures Contrast(f, Repaired(f, Mix(surface, text, 0.45), Mix(surface, text, 0.1), text, 3.0),
        Mix(surface, text, 0.1)) >= 3.0
  {
    MixIsValid(surface, text, 0.45);
    RepairReaches(f, Mix(surface, text, 0.45), Mix(surface, text, 0.1), text, 3.0);
  }
}
