/**
 * The LED colour store (`rgb_led_class`): an RGB triple that is always
 * current, and an HSL copy that is only trusted while its validity flag is
 * set. The PWM outputs are not modelled; only the stored colour and the
 * cache are.
 */
module RgbLed {
  import opened Bytes

  datatype Rgb = Rgb(r: Byte, g: Byte, b: Byte)

  /** Hue, saturation and lightness; the firmware stores them as `double`. */
  datatype Hsl = Hsl(h: real, s: real, l: real)

  datatype Channel = Red | Green | Blue

  /**
   * The numeric conversions the store and the node rely on, left
   * uninterpreted: the two colour-space conversions and the narrowing of an
   * HSL component times 255 to the byte sent as feedback.
   */
  datatype Conversions = Conversions(
    rgbToHsl: Rgb -> Hsl,
    hslToRgb: Hsl -> Rgb,
    feedbackByte: real -> Byte)

  /** The stored colour, the cached HSL copy and whether the copy is current. */
  datatype Led = Led(rgb: Rgb, hsl: Hsl, hslValid: bool)

  /** A read that may refresh the cache: the value read and the store afterwards. */
  datatype Read<T> = Read(value: T, led: Led)

  const Black := Rgb(0, 0, 0)
  const White := Rgb(255, 255, 255)
  const Grey := Rgb(128, 128, 128)

  function ChannelOf(c: Rgb, ch: Channel): Byte {
    match ch
    case Red => c.r
    case Green => c.g
    case Blue => c.b
  }

  function WithChannel(c: Rgb, ch: Channel, v: Byte): (d: Rgb)
    ensures ChannelOf(d, ch) == v
    ensures forall other: Channel | other != ch :: ChannelOf(d, other) == ChannelOf(c, other)
  {
    match ch
    case Red => c.(r := v)
    case Green => c.(g := v)
    case Blue => c.(b := v)
  }

  /** Construction: both colours cleared, the cache not valid. */
  function Init(): (r: Led)
    ensures forall ch: Channel :: GetChannel(r, ch) == 0
    ensures !r.hslValid
  {
    Led(Black, Hsl(0.0, 0.0, 0.0), false)
  }

  /** `get(RgbColor)`: the stored triple, without touching anything. */
  function GetRgb(led: Led): (c: Rgb)
    ensures forall ch: Channel :: ChannelOf(c, ch) == GetChannel(led, ch)
  {
    led.rgb
  }

  /** `get(HslColor)`: the cache when valid, else a conversion of the RGB triple; the flag is not set. */
  function GetHsl(cv: Conversions, led: Led): (x: Hsl)
    ensures led.hslValid ==> x == led.hsl
    ensures !led.hslValid ==> x == cv.rgbToHsl(GetRgb(led))
    ensures CacheSound(cv, led) ==> GetRgb(led) == cv.hslToRgb(x) || x == cv.rgbToHsl(GetRgb(led))
  {
    if led.hslValid then led.hsl else cv.rgbToHsl(led.rgb)
  }

  /**
   * The two views never disagree: a valid cache is either the HSL colour
   * the RGB triple was produced from, or the one computed from that triple.
   */
  ghost predicate CacheSound(cv: Conversions, led: Led) {
    led.hslValid ==> led.rgb == cv.hslToRgb(led.hsl) || led.hsl == cv.rgbToHsl(led.rgb)
  }

  /** `set(RgbColor)`: store exactly the given triple and invalidate the cache. */
  function SetRgb(led: Led, c: Rgb): (r: Led)
    ensures GetRgb(r) == c && !r.hslValid
  {
    Led(c, led.hsl, false)
  }

  /**
   * `set(HslColor)`: cache the HSL colour, store its RGB conversion, and end
   * with the cache valid although the inner RGB write cleared it.
   */
  function SetHsl(cv: Conversions, led: Led, x: Hsl): (r: Led)
    ensures r.hslValid && GetHsl(cv, r) == x
    ensures GetRgb(r) == cv.hslToRgb(x)
    ensures CacheSound(cv, r)
  {
    var stored := SetRgb(led.(hsl := x), cv.hslToRgb(x));
    stored.(hslValid := true)
  }

  /** Refresh the HSL cache from the RGB colour when it is stale; a current cache is kept. */
  function Refresh(cv: Conversions, led: Led): (r: Led)
    ensures r.hslValid
    ensures GetHsl(cv, r) == GetHsl(cv, led) && GetRgb(r) == GetRgb(led)
    ensures led.hslValid ==> r == led
    ensures CacheSound(cv, led) ==> CacheSound(cv, r)
  {
    if led.hslValid then led else led.(hsl := GetHsl(cv, led), hslValid := true)
  }

  /** `RGB_On`: all three channels full. */
  function RgbOn(led: Led): (r: Led)
    ensures forall ch: Channel :: ChannelOf(GetRgb(r), ch) == 255
    ensures !r.hslValid
  {
    SetRgb(led, White)
  }

  /** `RGB_Off`: all three channels dark. */
  function RgbOff(led: Led): (r: Led)
    ensures forall ch: Channel :: ChannelOf(GetRgb(r), ch) == 0
    ensures !r.hslValid
  {
    SetRgb(led, Black)
  }

  /**
   * `HSL_On`. Despite its name it sets the lightness to 0 (dark), keeping hue
   * and saturation.
   */
  function HslOn(cv: Conversions, led: Led): (r: Led)
    ensures GetHsl(cv, r) == GetHsl(cv, led).(l := 0.0)
    ensures r.hslValid && GetRgb(r) == cv.hslToRgb(GetHsl(cv, r))
  {
    var cached := Refresh(cv, led);
    SetHsl(cv, cached, cached.hsl.(l := 0.0))
  }

  /**
   * `HSL_Off`. Despite its name it sets the lightness to 0.99 (bright),
   * keeping hue and saturation.
   */
  function HslOff(cv: Conversions, led: Led): (r: Led)
    ensures GetHsl(cv, r) == GetHsl(cv, led).(l := 0.99)
    ensures r.hslValid && GetRgb(r) == cv.hslToRgb(GetHsl(cv, r))
  {
    var cached := Refresh(cv, led);
    SetHsl(cv, cached, cached.hsl.(l := 0.99))
  }

  /** `getRed`, `getGreen`, `getBlue`: one channel of the stored triple. */
  function GetChannel(led: Led, ch: Channel): (v: Byte)
    ensures ch == Red ==> v == led.rgb.r
    ensures ch == Green ==> v == led.rgb.g
    ensures ch == Blue ==> v == led.rgb.b
  {
    ChannelOf(led.rgb, ch)
  }

  /** `setRed`, `setGreen`, `setBlue`: one channel replaced, through `set(RgbColor)`. */
  function SetChannel(led: Led, ch: Channel, v: Byte): (r: Led)
    ensures GetChannel(r, ch) == v
    ensures forall other: Channel | other != ch :: GetChannel(r, other) == GetChannel(led, other)
    ensures !r.hslValid
  {
    SetRgb(led, WithChannel(led.rgb, ch, v))
  }

  /** `getHue`: the hue of the HSL view, leaving the cache refreshed and valid. */
  function GetHue(cv: Conversions, led: Led): (r: Read<real>)
    ensures r.value == GetHsl(cv, led).h
    ensures r.led.hslValid
    ensures GetHsl(cv, r.led) == GetHsl(cv, led) && GetRgb(r.led) == GetRgb(led)
  {
    var cached := Refresh(cv, led);
    Read(cached.hsl.h, cached)
  }

  /** `getSaturation`: the saturation of the HSL view, leaving the cache refreshed and valid. */
  function GetSaturation(cv: Conversions, led: Led): (r: Read<real>)
    ensures r.value == GetHsl(cv, led).s
    ensures r.led.hslValid
    ensures GetHsl(cv, r.led) == GetHsl(cv, led) && GetRgb(r.led) == GetRgb(led)
  {
    var cached := Refresh(cv, led);
    Read(cached.hsl.s, cached)
  }

  /**
   * `getIntensity`: reads through `get(HslColor)` into a temporary, so it
   * never refreshes the cache nor changes its flag.
   */
  function GetIntensity(cv: Conversions, led: Led): (v: real)
    ensures v == GetHsl(cv, Refresh(cv, led)).l
    ensures led.hslValid ==> v == led.hsl.l
    ensures !led.hslValid ==> v == cv.rgbToHsl(GetRgb(led)).l
  {
    GetHsl(cv, led).l
  }

  /** `setHue`: refresh the cache if needed, then replace the hue alone. */
  function SetHue(cv: Conversions, led: Led, a: real): (r: Led)
    ensures GetHsl(cv, r) == GetHsl(cv, led).(h := a)
    ensures r.hslValid && GetRgb(r) == cv.hslToRgb(GetHsl(cv, r))
  {
    var cached := Refresh(cv, led);
    SetHsl(cv, cached, cached.hsl.(h := a))
  }

  /** `setSaturation`: refresh the cache if needed, then replace the saturation alone. */
  function SetSaturation(cv: Conversions, led: Led, a: real): (r: Led)
    ensures GetHsl(cv, r) == GetHsl(cv, led).(s := a)
    ensures r.hslValid && GetRgb(r) == cv.hslToRgb(GetHsl(cv, r))
  {
    var cached := Refresh(cv, led);
    SetHsl(cv, cached, cached.hsl.(s := a))
  }

  /** `setIntensity`: refresh the cache if needed, then replace the lightness alone. */
  function SetIntensity(cv: Conversions, led: Led, a: real): (r: Led)
    ensures GetHsl(cv, r) == GetHsl(cv, led).(l := a)
    ensures r.hslValid && GetRgb(r) == cv.hslToRgb(GetHsl(cv, r))
  {
    var cached := Refresh(cv, led);
    SetHsl(cv, cached, cached.hsl.(l := a))
  }

  /**
   * A freshly built store reads black, and its HSL view is the conversion of
   * black: the cleared cache is never what a reader sees.
   */
  lemma InitialViews(cv: Conversions)
    ensures GetRgb(Init()) == Black && !Init().hslValid
    ensures GetHsl(cv, Init()) == cv.rgbToHsl(Black)
    ensures CacheSound(cv, Init())
  {
  }

  /** Writing RGB and reading it back is the identity; the HSL view then follows the new triple. */
  lemma RgbRoundTrip(cv: Conversions, led: Led, c: Rgb)
    ensures GetRgb(SetRgb(led, c)) == c
    ensures GetHsl(cv, SetRgb(led, c)) == cv.rgbToHsl(c)
  {
  }

  /** Writing HSL and reading it back is the identity, whatever the conversions do. */
  lemma HslRoundTrip(cv: Conversions, led: Led, x: Hsl)
    ensures GetHsl(cv, SetHsl(cv, led, x)) == x
  {
  }

  /** The getters read back what the matching setter wrote, and the other two components are kept. */
  lemma HslSetGet(cv: Conversions, led: Led, a: real)
    ensures GetHue(cv, SetHue(cv, led, a)).value == a
    ensures GetSaturation(cv, SetSaturation(cv, led, a)).value == a
    ensures GetIntensity(cv, SetIntensity(cv, led, a)) == a
    ensures GetSaturation(cv, SetHue(cv, led, a)).value == GetSaturation(cv, led).value
    ensures GetIntensity(cv, SetHue(cv, led, a)) == GetIntensity(cv, led)
  {
  }

  /** Every operation of the store keeps the two views from diverging. */
  lemma CacheStaysSound(cv: Conversions, led: Led, c: Rgb, ch: Channel, v: Byte, a: real)
    requires CacheSound(cv, led)
    ensures CacheSound(cv, SetRgb(led, c)) && CacheSound(cv, SetChannel(led, ch, v))
    ensures CacheSound(cv, RgbOn(led)) && CacheSound(cv, RgbOff(led))
    ensures CacheSound(cv, HslOn(cv, led)) && CacheSound(cv, HslOff(cv, led))
    ensures CacheSound(cv, SetHue(cv, led, a)) && CacheSound(cv, SetSaturation(cv, led, a))
    ensures CacheSound(cv, SetIntensity(cv, led, a))
    ensures CacheSound(cv, GetHue(cv, led).led) && CacheSound(cv, GetSaturation(cv, led).led)
  {
  }
}
