/**
 * The option generators of the command builder: the ready-made transitions
 * (`addReadyMadeTransition`), the text overlay (`addTextOverlay`), the
 * watermark (`addWatermark`), the background audio track
 * (`addBackgroundAudio`) and the switches `disableAudio` / `disableVideo`.
 * Each computes the option arrays that the builder then appends with
 * `addOption`; the keyframe animation strings are built here.
 */
module Generators {
  import opened PhpText
  import opened OptionTree

  /** An option value interpolated into a string: a scalar as itself, an
      array as PHP's word "Array". */
  function Interp(n: Node): string {
    match n
    case Leaf(v) => Raw(v)
    case List(_) => "Array"
  }

  /** PHP's `empty()` on an option value. */
  predicate IsEmptyValue(n: Node) {
    match n
    case Leaf(Num(i)) => i == 0
    case Leaf(Str(s)) => Falsy(s)
    case List(es) => es == []
  }

  /** `(int)` on an option value. */
  function IntCast(n: Node): int {
    match n
    case Leaf(Num(i)) => i
    case Leaf(Str(s)) => LeadingInt(s)
    case List(es) => if es == [] then 0 else 1
  }

  /** `$a[$name]`, reading a missing key as PHP's null (an empty string). */
  function GetOr(es: seq<Entry>, name: string): (r: Node)
    ensures Get(es, name).Some? ==> r == Get(es, name).value
  {
    match Get(es, name)
    case Some(v) => v
    case None => Leaf(Str(""))
  }

  function Number(name: string, n: int): Entry {
    (Named(name), Leaf(Num(n)))
  }

  function Text(name: string, s: string): Entry {
    (Named(name), Leaf(Str(s)))
  }

  // ---------------------------------------------------------------------
  // Keyframe animation strings

  /** One keyframe `frame=x/y:WxH:opacity` of an animated geometry. */
  datatype Keyframe = Keyframe(frame: string, x: string, y: string, w: string, h: string, opacity: string)

  function KeyframeText(k: Keyframe): string {
    k.frame + "=" + k.x + "/" + k.y + ":" + k.w + "x" + k.h + ":" + k.opacity
  }

  /** A two-keyframe animation `first;second`. */
  function Animation(first: Keyframe, second: Keyframe): string {
    KeyframeText(first) + ";" + KeyframeText(second)
  }

  /** The text before and after the first `c` in `s`. */
  function SplitAt(s: string, c: char): (string, string) {
    if s == [] then ([], [])
    else if s[0] == c then ([], s[1..])
    else var (a, b) := SplitAt(s[1..], c); ([s[0]] + a, b)
  }

  lemma {:induction false} SplitAtJoin(a: string, c: char, b: string)
    requires c !in a
    ensures SplitAt(a + [c] + b, c) == (a, b)
  {
    if a == [] {
      assert a + [c] + b == [c] + b;
    } else {
      var s := a + [c] + b;
      assert s[0] == a[0] && s[0] != c;
      assert s[1..] == a[1..] + [c] + b;
      SplitAtJoin(a[1..], c, b);
      assert a == [a[0]] + a[1..];
    }
  }

  function ParseKeyframe(s: string): Keyframe {
    var (frame, r1) := SplitAt(s, '=');
    var (x, r2) := SplitAt(r1, '/');
    var (y, r3) := SplitAt(r2, ':');
    var (w, r4) := SplitAt(r3, 'x');
    var (h, opacity) := SplitAt(r4, ':');
    Keyframe(frame, x, y, w, h, opacity)
  }

  function ParseAnimation(s: string): (Keyframe, Keyframe) {
    var (a, b) := SplitAt(s, ';');
    (ParseKeyframe(a), ParseKeyframe(b))
  }

  /** A keyframe whose fields hold none of the separators that follow them. */
  predicate Separable(k: Keyframe) {
    '=' !in k.frame && ';' !in k.frame && '/' !in k.x && ';' !in k.x && ':' !in k.y && ';' !in k.y
    && 'x' !in k.w && ';' !in k.w && ':' !in k.h && ';' !in k.h && ';' !in k.opacity
  }

  lemma KeyframeRoundTrip(k: Keyframe)
    requires Separable(k)
    ensures ParseKeyframe(KeyframeText(k)) == k
  {
    var t4 := k.h + [':'] + k.opacity;
    var t3 := k.w + ['x'] + t4;
    var t2 := k.y + [':'] + t3;
    var t1 := k.x + ['/'] + t2;
    var t0 := k.frame + ['='] + t1;
    assert KeyframeText(k) == t0;
    SplitAtJoin(k.frame, '=', t1);
    SplitAtJoin(k.x, '/', t2);
    SplitAtJoin(k.y, ':', t3);
    SplitAtJoin(k.w, 'x', t4);
    SplitAtJoin(k.h, ':', k.opacity);
  }

  /** The animation strings can be read back: the two keyframes come out of
      the text they were written to. */
  lemma AnimationRoundTrip(first: Keyframe, second: Keyframe)
    requires Separable(first) && Separable(second)
    ensures ParseAnimation(Animation(first, second)) == (first, second)
  {
    var a := KeyframeText(first);
    assert ';' !in a by {
      assert a == first.frame + ("=" + (first.x + ("/" + (first.y + (":" + (first.w + ("x" + (first.h + (":" + first.opacity)))))))));
    }
    SplitAtJoin(a, ';', KeyframeText(second));
    KeyframeRoundTrip(first);
    KeyframeRoundTrip(second);
  }

  // ---------------------------------------------------------------------
  // Ready-made transitions

  datatype Side = Right | Left | Top | Bottom

  datatype Transition =
    | Fade
    | ShiftIn(side: Side)
    | ShiftOut(side: Side)
    | Wipe(invert: bool)
    | Unsupported

  /** The `switch ($transitionName)`. */
  function TransitionKind(name: string): (t: Transition)
    ensures t.Unsupported? <==> name !in TransitionNames
  {
    match name
    case "fade" => Fade
    case "shiftRightIn" => ShiftIn(Right)
    case "shiftRightOut" => ShiftOut(Right)
    case "shiftLeftIn" => ShiftIn(Left)
    case "shiftLeftOut" => ShiftOut(Left)
    case "shiftTopIn" => ShiftIn(Top)
    case "shiftTopOut" => ShiftOut(Top)
    case "shiftBottomIn" => ShiftIn(Bottom)
    case "shiftBottomOut" => ShiftOut(Bottom)
    case "wipeIn" => Wipe(false)
    case "wipeOut" => Wipe(true)
    case _ => Unsupported
  }

  const TransitionNames: set<string> := {
    "fade", "shiftRightIn", "shiftRightOut", "shiftLeftIn", "shiftLeftOut", "shiftTopIn",
    "shiftTopOut", "shiftBottomIn", "shiftBottomOut", "wipeIn", "wipeOut"
  }

  /** The sizes and opacities of a shift, as interpolated strings. */
  datatype ShiftParams = ShiftParams(
    inWidth: string, inHeight: string, outWidth: string, outHeight: string,
    inOpacity: string, outOpacity: string)

  /** A shift "In" slides the incoming clip from off-screen to 0/0; a shift
      "Out" slides the outgoing clip from 0/0 off-screen. */
  function ShiftKeyframes(out: bool, side: Side, duration: string, p: ShiftParams): (r: (Keyframe, Keyframe))
    ensures r.0.frame == "0" && r.1.frame == duration
    ensures var rest := if out then r.0 else r.1; rest.x == "0" && rest.y == "0"
  {
    var (x, y) :=
      if out then
        match side
        case Right => (p.inWidth, "0")
        case Left => ("-" + p.inWidth, "0")
        case Top => ("0", "-" + p.inHeight)
        case Bottom => ("0", p.inHeight)
      else
        match side
        case Right => (p.outWidth, "0")
        case Left => ("-" + p.outWidth, "0")
        case Top => ("0", "-" + p.outHeight)
        case Bottom => ("0", p.outHeight);
    var (x0, y0, x1, y1) := if out then ("0", "0", x, y) else (x, y, "0", "0");
    (Keyframe("0", x0, y0, p.inWidth, p.inHeight, p.inOpacity),
     Keyframe(duration, x1, y1, p.outWidth, p.outHeight, p.outOpacity))
  }

  /** An "Out" shift is the time reverse of the "In" shift on the same side:
      when the in and out sizes and opacities agree, it starts where the
      "In" shift ends and ends where the "In" shift starts. */
  lemma ShiftOutReversesIn(side: Side, duration: string, p: ShiftParams)
    requires p.inWidth == p.outWidth && p.inHeight == p.outHeight && p.inOpacity == p.outOpacity
    ensures var (a, b) := ShiftKeyframes(false, side, duration, p);
      var (c, d) := ShiftKeyframes(true, side, duration, p);
      && c == b.(frame := "0") && d == a.(frame := duration)
  {
  }

  /** The option array after the defaults of `addReadyMadeTransition`: the caller's
      options over width, height and full opacities, and the in/out sizes
      defaulting to the width and height. */
  function TransitionSettings(options: seq<Entry>, width: int, height: int): (opt: seq<Entry>)
    ensures forall n :: n in ["inWidth", "inHeight", "outWidth", "outHeight"] ==> Get(opt, n).Some?
  {
    FillSizes(Merge(TransitionDefaults(width, height), options))
  }

  /** The `isset` fills of `addReadyMadeTransition`: each in/out size left
      out takes the width or height. */
  function FillSizes(opt: seq<Entry>): (r: seq<Entry>)
    ensures Get(r, "inWidth") == Filled(opt, "inWidth", "width")
    ensures Get(r, "inHeight") == Filled(opt, "inHeight", "height")
    ensures Get(r, "outWidth") == Filled(opt, "outWidth", "width")
    ensures Get(r, "outHeight") == Filled(opt, "outHeight", "height")
    ensures forall n :: n !in ["inWidth", "inHeight", "outWidth", "outHeight"] ==> Get(r, n) == Get(opt, n)
  {
    var inner := FillPair(opt, "inWidth", "width", "inHeight", "height");
    FilledKept(opt, "inWidth", "width", "inHeight", "height", "outWidth", "width");
    FilledKept(opt, "inWidth", "width", "inHeight", "height", "outHeight", "height");
    FillPair(inner, "outWidth", "width", "outHeight", "height")
  }

  /** The value of `name` once defaulted to the value of `from`. */
  function Filled(opt: seq<Entry>, name: string, from: string): (r: Option<Node>)
    ensures r.Some?
  {
    if Get(opt, name).Some? then Get(opt, name) else Some(GetOr(opt, from))
  }

  /** Two keys defaulted one after the other, each from a key that is
      neither of them. */
  function FillPair(opt: seq<Entry>, a: string, fa: string, b: string, fb: string): (r: seq<Entry>)
    requires a != b && fa != a && fa != b && fb != a && fb != b
    ensures Get(r, a) == Filled(opt, a, fa) && Get(r, b) == Filled(opt, b, fb)
    ensures forall n :: n != a && n != b ==> Get(r, n) == Get(opt, n)
  {
    DefaultTo(DefaultTo(opt, a, fa), b, fb)
  }

  lemma FilledKept(opt: seq<Entry>, a: string, fa: string, b: string, fb: string, n: string, f: string)
    requires a != b && fa != a && fa != b && fb != a && fb != b
    requires n != a && n != b && f != a && f != b
    ensures Filled(FillPair(opt, a, fa, b, fb), n, f) == Filled(opt, n, f)
  {
  }

  function TransitionDefaults(width: int, height: int): seq<Entry> {
    [Number("width", width), Number("height", height), Number("inOpacity", 100), Number("outOpacity", 100)]
  }

  /** `if (!isset($opt[$name])) { $opt[$name] = $opt[$from]; }` */
  function DefaultTo(opt: seq<Entry>, name: string, from: string): (r: seq<Entry>)
    ensures Get(r, name).Some?
    ensures Get(opt, name).Some? ==> r == opt
    ensures Get(opt, name).None? ==> Get(r, name) == Some(GetOr(opt, from))
    ensures forall m :: m != name ==> Get(r, m) == Get(opt, m)
  {
    if Get(opt, name).Some? then opt else Put(opt, name, GetOr(opt, from))
  }

  function ShiftParamsOf(opt: seq<Entry>): ShiftParams {
    ShiftParams(
      Interp(GetOr(opt, "inWidth")), Interp(GetOr(opt, "inHeight")),
      Interp(GetOr(opt, "outWidth")), Interp(GetOr(opt, "outHeight")),
      Interp(GetOr(opt, "inOpacity")), Interp(GetOr(opt, "outOpacity")))
  }

  /** The directory separator of the paths the builder writes. */
  const Separator: string := "/"

  const DefaultWipe: string := "linear_x.pgm"

  /** The luma parameters of a wipe in `addReadyMadeTransition`. */
  function WipeParams(invert: bool, options: seq<Entry>, wipesDir: string): (r: seq<Entry>)
    ensures |r| == 5 && r[0].0 == Named("resource") && r[1].0 == Named("softness")
    ensures r[2] == Number("automatic", 1) && r[3] == Number("fill", 1)
    ensures r[4] == Number("invert", if invert then 1 else 0)
    ensures r[1].1 == if LastValue(options, "softness").Some? then LastValue(options, "softness").value else Leaf(Num(0))
  {
    SoftnessDefault(options, wipesDir);
    var opt := Merge(WipeDefaults(wipesDir), options);
    var wipeName := GetOr(opt, "wipeName");
    var resource :=
      if !IsEmptyValue(wipeName) then Leaf(Str(wipesDir + Separator + Interp(wipeName)))
      else GetOr(opt, "wipePath");
    [(Named("resource"), resource), (Named("softness"), GetOr(opt, "softness")),
     Number("automatic", 1), Number("fill", 1), Number("invert", if invert then 1 else 0)]
  }

  function WipeDefaults(wipesDir: string): seq<Entry> {
    [Text("wipeName", DefaultWipe), Text("wipePath", wipesDir + Separator + DefaultWipe), Number("softness", 0)]
  }

  /** The caller's `softness`, else 0. */
  lemma SoftnessDefault(options: seq<Entry>, wipesDir: string)
    ensures var opt := Merge(WipeDefaults(wipesDir), options);
      Get(opt, "softness") == Some(if LastValue(options, "softness").Some? then LastValue(options, "softness").value else Leaf(Num(0)))
  {
    MergeGet(WipeDefaults(wipesDir), options, "softness");
    LastValueUnique(WipeDefaults(wipesDir), 2, "softness");
  }

  /** The wipe image: the named image in the wipes directory (by default
      `linear_x.pgm`), or the `wipePath` (by default the same image) when
      the name is given empty. */
  lemma WipeResource(invert: bool, options: seq<Entry>, wipesDir: string)
    ensures LastValue(options, "wipeName").None? ==>
      WipeParams(invert, options, wipesDir)[0].1 == Leaf(Str(wipesDir + Separator + DefaultWipe))
    ensures LastValue(options, "wipeName").Some? && !IsEmptyValue(LastValue(options, "wipeName").value) ==>
      WipeParams(invert, options, wipesDir)[0].1
        == Leaf(Str(wipesDir + Separator + Interp(LastValue(options, "wipeName").value)))
    ensures (LastValue(options, "wipeName").Some? && IsEmptyValue(LastValue(options, "wipeName").value)
             && LastValue(options, "wipePath").Some?) ==>
      WipeParams(invert, options, wipesDir)[0].1 == LastValue(options, "wipePath").value
    ensures (LastValue(options, "wipeName").Some? && IsEmptyValue(LastValue(options, "wipeName").value)
             && LastValue(options, "wipePath").None?) ==>
      WipeParams(invert, options, wipesDir)[0].1 == Leaf(Str(wipesDir + Separator + DefaultWipe))
  {
    var d := WipeDefaults(wipesDir);
    MergeGet(d, options, "wipeName");
    MergeGet(d, options, "wipePath");
    LastValueUnique(d, 0, "wipeName");
    LastValueUnique(d, 1, "wipePath");
  }

  /** The `mixer` option of a shift: the `region` transition animated by
      the two keyframes, with explicit tracks for an "Out" shift. */
  function ShiftMixer(out: bool, side: Side, duration: int, options: seq<Entry>, width: int, height: int): seq<Entry> {
    var p := ShiftParamsOf(TransitionSettings(options, width, height));
    var (a, b) := ShiftKeyframes(out, side, IntToString(duration), p);
    var geometry := List([Text("composite.geometry", Animation(a, b))]);
    var tracks := List([Number("a_track", 1), Number("b_track", 0)]);
    [(Named("mixer"), List(
      if out then [(Pos(0), Leaf(Str("region"))), (Pos(1), tracks), (Pos(2), geometry)]
      else [(Pos(0), Leaf(Str("region"))), (Pos(1), geometry)]))]
  }

  /** The `mixer` option of a transition of kind `t`. */
  function Mixer(t: Transition, duration: int, options: seq<Entry>, width: int, height: int, wipesDir: string): seq<Entry>
    requires !t.Unsupported?
  {
    match t
    case Fade => [Text("mixer", "luma")]
    case Wipe(invert) =>
      [(Named("mixer"), List([(Pos(0), Leaf(Str("luma"))), (Pos(1), List(WipeParams(invert, options, wipesDir)))]))]
    case ShiftIn(side) => ShiftMixer(false, side, duration, options, width, height)
    case ShiftOut(side) => ShiftMixer(true, side, duration, options, width, height)
  }

  /** The options `addReadyMadeTransition` appends, in order: always `mix`
      first, then the mixer of a known transition, nothing more for an
      unknown one. */
  function TransitionOptions(name: string, duration: int, options: seq<Entry>, width: int, height: int, wipesDir: string)
    : (r: seq<seq<Entry>>)
    ensures |r| == (if name in TransitionNames then 2 else 1)
    ensures r[0] == [Number("mix", duration)]
    ensures name == "fade" ==> r[1] == [Text("mixer", "luma")]
    ensures name in TransitionNames ==> |r[1]| == 1 && r[1][0].0 == Named("mixer")
  {
    var t := TransitionKind(name);
    if t.Unsupported? then [[Number("mix", duration)]]
    else [[Number("mix", duration)], Mixer(t, duration, options, width, height, wipesDir)]
  }

  /** The "Out" shifts name the tracks explicitly (`a_track=1`, `b_track=0`);
      the "In" shifts do not. */
  lemma ShiftTracks(side: Side, duration: int, options: seq<Entry>, width: int, height: int, wipesDir: string)
    ensures var m := Mixer(ShiftOut(side), duration, options, width, height, wipesDir)[0].1;
      m.List? && |m.entries| == 3 && m.entries[1].1 == List([Number("a_track", 1), Number("b_track", 0)])
    ensures var m := Mixer(ShiftIn(side), duration, options, width, height, wipesDir)[0].1;
      m.List? && |m.entries| == 2 && m.entries[0].1 == Leaf(Str("region"))
  {
  }

  /** Every shift's geometry is the two-keyframe animation of its side:
      from frame 0 to the transition's last frame, the sizes and opacities
      given (or defaulted to the output size and full opacity). */
  lemma ShiftGeometry(out: bool, side: Side, duration: int, options: seq<Entry>, width: int, height: int, wipesDir: string)
    ensures var t := if out then ShiftOut(side) else ShiftIn(side);
      var m := Mixer(t, duration, options, width, height, wipesDir)[0].1;
      var p := ShiftParamsOf(TransitionSettings(options, width, height));
      var (a, b) := ShiftKeyframes(out, side, IntToString(duration), p);
      && m.entries[|m.entries| - 1].1 == List([Text("composite.geometry", Animation(a, b))])
      && a.frame == "0" && b.frame == IntToString(duration)
      && (if out then a.x == "0" && a.y == "0" else b.x == "0" && b.y == "0")
  {
  }

  /** Without caller options a shift uses the output size and full opacity
      throughout. */
  lemma ShiftDefaults(width: int, height: int)
    ensures ShiftParamsOf(TransitionSettings([], width, height)) ==
      ShiftParams(IntToString(width), IntToString(height), IntToString(width), IntToString(height), IntToString(100), IntToString(100))
  {
    var m := Merge(TransitionDefaults(width, height), []);
    TransitionDefaultsAlone(width, height);
    var r := FillSizes(m);
    assert Get(r, "inOpacity") == Get(m, "inOpacity");
    assert Get(r, "outOpacity") == Get(m, "outOpacity");
  }

  /** What the defaults of a transition give when the caller passes no
      options. */
  lemma TransitionDefaultsAlone(width: int, height: int)
    ensures var m := Merge(TransitionDefaults(width, height), []);
      && Get(m, "width") == Some(Leaf(Num(width))) && Get(m, "height") == Some(Leaf(Num(height)))
      && Get(m, "inOpacity") == Some(Leaf(Num(100))) && Get(m, "outOpacity") == Some(Leaf(Num(100)))
      && Get(m, "inWidth").None? && Get(m, "inHeight").None?
      && Get(m, "outWidth").None? && Get(m, "outHeight").None?
  {
    var d := TransitionDefaults(width, height);
    var m := Merge(d, []);
    assert Get(m, "width") == Some(Leaf(Num(width))) by { MergeGet(d, [], "width"); LastValueFour(d, "width"); }
    assert Get(m, "height") == Some(Leaf(Num(height))) by { MergeGet(d, [], "height"); LastValueFour(d, "height"); }
    assert Get(m, "inOpacity") == Some(Leaf(Num(100))) by { MergeGet(d, [], "inOpacity"); LastValueFour(d, "inOpacity"); }
    assert Get(m, "outOpacity") == Some(Leaf(Num(100))) by { MergeGet(d, [], "outOpacity"); LastValueFour(d, "outOpacity"); }
    assert Get(m, "inWidth").None? by { MergeGet(d, [], "inWidth"); LastValueFour(d, "inWidth"); }
    assert Get(m, "inHeight").None? by { MergeGet(d, [], "inHeight"); LastValueFour(d, "inHeight"); }
    assert Get(m, "outWidth").None? by { MergeGet(d, [], "outWidth"); LastValueFour(d, "outWidth"); }
    assert Get(m, "outHeight").None? by { MergeGet(d, [], "outHeight"); LastValueFour(d, "outHeight"); }
  }

  /** The last value of `name` in a four-entry array, read off entry by
      entry from the end. */
  lemma LastValueFour(d: seq<Entry>, name: string)
    requires |d| == 4
    ensures LastValue(d, name) ==
      if d[3].0 == Named(name) then Some(d[3].1)
      else if d[2].0 == Named(name) then Some(d[2].1)
      else if d[1].0 == Named(name) then Some(d[1].1)
      else if d[0].0 == Named(name) then Some(d[0].1)
      else None
  {
    assert d[..3][..2] == d[..2] && d[..2][..1] == d[..1];
    assert LastValue(d, name) == if d[3].0 == Named(name) then Some(d[3].1) else LastValue(d[..3], name);
    assert LastValue(d[..3], name) == if d[2].0 == Named(name) then Some(d[2].1) else LastValue(d[..2], name);
    assert LastValue(d[..2], name) == if d[1].0 == Named(name) then Some(d[1].1) else LastValue(d[..1], name);
  }

  // ---------------------------------------------------------------------
  // Text overlay, watermark, background audio, audio and video switches

  const TextDefaults: seq<Entry> := [
    Number("in", 0), Number("out", 0), Text("fgcolour", "#ffffff"), Number("bgcolour", 0),
    Text("olcolour", "#000000"), Number("outline", 1), Text("pad", "0x0"), Number("size", 48),
    Number("weight", 400), Text("style", "normal"), Text("halign", "left"), Text("valign", "top"),
    Text("family", "Ubuntu")
  ]

  /** The slide-in geometry of a text overlay: from off-screen on the
      `slideFrom` side (left when not top, bottom or right) to 0%/0%. */
  function SlideKeyframes(slideFrom: Node, duration: int, inOpacity: int, outOpacity: int): (Keyframe, Keyframe) {
    var (x, y) := SlideStart(slideFrom);
    (Keyframe("0", x, y, "100%", "100%", IntToString(inOpacity)),
     Keyframe(IntToString(duration), "0%", "0%", "100%", "100%", IntToString(outOpacity)))
  }

  /** The `switch ($options['slideFrom'])`: the offset the text starts at. */
  function SlideStart(slideFrom: Node): (r: (string, string))
    ensures (r.0 == "0%") != (r.1 == "0%")
    ensures r.0 == "0%" <==> slideFrom in {Leaf(Str("top")), Leaf(Str("bottom"))}
  {
    if slideFrom == Leaf(Str("top")) then ("0%", "-100%")
    else if slideFrom == Leaf(Str("bottom")) then ("0%", "100%")
    else if slideFrom == Leaf(Str("right")) then ("100%", "0%")
    else ("-100%", "0%")
  }

  /** Text made of digits, minus signs and percent signs, as the numeric
      fields of the animations are. */
  predicate Plain(s: string) {
    forall i :: 0 <= i < |s| ==> IsDigit(s[i]) || s[i] == '-' || s[i] == '%'
  }

  lemma PlainSeparable(k: Keyframe)
    requires Plain(k.frame) && Plain(k.x) && Plain(k.y) && Plain(k.w) && Plain(k.h) && Plain(k.opacity)
    ensures Separable(k)
  {
  }

  lemma PlainNegated(s: string)
    requires Plain(s)
    ensures Plain("-" + s)
  {
    assert forall i :: 1 <= i < |"-" + s| ==> ("-" + s)[i] == s[i - 1];
  }

  lemma IntToStringPlain(n: int)
    ensures Plain(IntToString(n))
  {
    if n < 0 {
      PlainNegated(NatToString(-n));
    }
  }

  /** A shift animation whose sizes, opacities and duration are numbers
      reads back as the two keyframes it was built from. */
  lemma ShiftReadsBack(out: bool, side: Side, duration: string, p: ShiftParams)
    requires Plain(duration) && Plain(p.inWidth) && Plain(p.inHeight) && Plain(p.outWidth)
    requires Plain(p.outHeight) && Plain(p.inOpacity) && Plain(p.outOpacity)
    ensures var (a, b) := ShiftKeyframes(out, side, duration, p);
      ParseAnimation(Animation(a, b)) == (a, b)
  {
    PlainNegated(p.inWidth);
    PlainNegated(p.inHeight);
    PlainNegated(p.outWidth);
    PlainNegated(p.outHeight);
    var (a, b) := ShiftKeyframes(out, side, duration, p);
    PlainSeparable(a);
    PlainSeparable(b);
    AnimationRoundTrip(a, b);
  }

  /** Every slide animation of the text overlay reads back as its two
      keyframes. */
  lemma SlideReadsBack(slideFrom: Node, duration: int, inOpacity: int, outOpacity: int)
    ensures var (a, b) := SlideKeyframes(slideFrom, duration, inOpacity, outOpacity);
      ParseAnimation(Animation(a, b)) == (a, b)
  {
    IntToStringPlain(duration);
    IntToStringPlain(inOpacity);
    IntToStringPlain(outOpacity);
    var (a, b) := SlideKeyframes(slideFrom, duration, inOpacity, outOpacity);
    PlainSeparable(a);
    PlainSeparable(b);
    AnimationRoundTrip(a, b);
  }

  /** `(int) $options[$name]` when set, else the default. */
  function IntOption(opt: seq<Entry>, name: string, default: int): int {
    match Get(opt, name)
    case Some(v) => IntCast(v)
    case None => default
  }

  /** The overlay's own options: the defaults under the caller's options,
      plus the slide geometry when `slideFrom` is given. */
  function TextSettings(options: seq<Entry>): (opt: seq<Entry>)
    ensures forall n :: n != "geometry" ==> Get(opt, n) == Get(Merge(TextDefaults, options), n)
  {
    Slide(Merge(TextDefaults, options))
  }

  /** Sets `geometry` to the slide-in animation when `slideFrom` is set and
      not empty; duration and opacities default to 50 frames and 100. */
  function Slide(opt: seq<Entry>): (r: seq<Entry>)
    ensures forall n :: n != "geometry" ==> Get(r, n) == Get(opt, n)
    ensures Get(opt, "slideFrom").None? || IsEmptyValue(Get(opt, "slideFrom").value) ==> r == opt
  {
    var slideFrom := GetOr(opt, "slideFrom");
    if Get(opt, "slideFrom").Some? && !IsEmptyValue(slideFrom) then
      var (a, b) := SlideKeyframes(slideFrom, IntOption(opt, "duration", 50),
                                   IntOption(opt, "inOpacity", 100), IntOption(opt, "outOpacity", 100));
      Put(opt, "geometry", Leaf(Str(Animation(a, b))))
    else opt
  }

  /** `['attach' => [$filter], $options]`, or `attach-track` for every
      track. */
  function Attach(attachToAll: bool, filter: string, options: seq<Entry>): seq<Entry> {
    [(Named(if attachToAll then "attach-track" else "attach"), List([(Pos(0), Leaf(Str(filter)))])),
     (Pos(0), List(options))]
  }

  /** The option `addTextOverlay` appends: the `dynamictext` filter attached
      to the last track (or to every track), followed by the overlay's
      settings, in which every key but `geometry` is the caller's value or
      else the default. */
  function TextOverlayOption(textContent: string, attachToAll: bool, options: seq<Entry>): (r: seq<Entry>)
    ensures |r| == 2 && r[0].1 == List([(Pos(0), Leaf(Str("dynamictext:" + textContent)))])
    ensures r[0].0 == Named(if attachToAll then "attach-track" else "attach")
    ensures r[1].0 == Pos(0) && r[1].1.List?
    ensures forall n :: n != "geometry" ==>
      Get(r[1].1.entries, n) == (if LastValue(options, n).Some? then LastValue(options, n) else LastValue(TextDefaults, n))
  {
    var r := Attach(attachToAll, "dynamictext:" + textContent, TextSettings(options));
    assert forall n :: n != "geometry" ==>
      Get(r[1].1.entries, n) == (if LastValue(options, n).Some? then LastValue(options, n) else LastValue(TextDefaults, n))
    by {
      forall n | n != "geometry" {
        MergeGet(TextDefaults, options, n);
      }
    }
    r
  }

  /** A `slideFrom` of "top", "bottom" or "right" slides the text in from
      that side, and any other non-empty value from the left; without a
      duration or opacities it takes 50 frames at full opacity. */
  lemma SlideDefaults(opt: seq<Entry>)
    requires Get(opt, "slideFrom").Some? && !IsEmptyValue(Get(opt, "slideFrom").value)
    requires Get(opt, "duration").None? && Get(opt, "inOpacity").None? && Get(opt, "outOpacity").None?
    ensures var (x, y) := SlideStart(Get(opt, "slideFrom").value);
      var full := IntToString(100);
      Get(Slide(opt), "geometry") == Some(Leaf(Str(Animation(
        Keyframe("0", x, y, "100%", "100%", full), Keyframe(IntToString(50), "0%", "0%", "100%", "100%", full)))))
  {
    assert IntOption(opt, "duration", 50) == 50 && IntOption(opt, "inOpacity", 100) == 100;
    assert IntOption(opt, "outOpacity", 100) == 100;
  }

  /** The watermark's own options in `addWatermark`: the caller's options over
      the output size at 0/0, a `composite.geometry` built from them unless
      the caller gave one, and the four size and position keys removed. */
  function WatermarkSettings(options: seq<Entry>, width: int, height: int): (opt: seq<Entry>)
    ensures forall n :: n in ["width", "height", "left", "top"] ==> Get(opt, n).None?
    ensures Get(opt, "composite.geometry").Some?
    ensures forall n :: n !in PlacementKeys && n != "composite.geometry" ==> Get(opt, n) == LastValue(options, n)
  {
    var merged := Merge(WatermarkDefaults(width, height), options);
    assert forall n :: n !in PlacementKeys ==> Get(merged, n) == LastValue(options, n) by {
      forall n | n !in PlacementKeys
        ensures Get(merged, n) == LastValue(options, n)
      {
        WatermarkMergeOther(options, width, height, n);
      }
    }
    Place(merged)
  }

  /** Outside the four size and position keys the merge holds the caller's
      value. */
  lemma WatermarkMergeOther(options: seq<Entry>, width: int, height: int, n: string)
    requires n !in PlacementKeys
    ensures Get(Merge(WatermarkDefaults(width, height), options), n) == LastValue(options, n)
  {
    var d := WatermarkDefaults(width, height);
    MergeGet(d, options, n);
    LastValueFour(d, n);
  }

  function WatermarkDefaults(width: int, height: int): seq<Entry> {
    [Number("width", width), Number("height", height), Number("left", 0), Number("top", 0)]
  }

  /** The geometry `left/top:widthxheight` unless one is given, then the
      four size and position keys dropped. */
  function Place(o: seq<Entry>): (opt: seq<Entry>)
    ensures forall n :: n in ["width", "height", "left", "top"] ==> Get(opt, n).None?
    ensures Get(opt, "composite.geometry") ==
      if Get(o, "composite.geometry").Some? then Get(o, "composite.geometry")
      else Some(Leaf(Str(Geometry(Interp(GetOr(o, "left")), Interp(GetOr(o, "top")),
                                  Interp(GetOr(o, "width")), Interp(GetOr(o, "height"))))))
    ensures forall n :: n !in PlacementKeys && n != "composite.geometry" ==> Get(opt, n) == Get(o, n)
  {
    var o :=
      if Get(o, "composite.geometry").Some? then o
      else Put(o, "composite.geometry", Leaf(Str(Geometry(
        Interp(GetOr(o, "left")), Interp(GetOr(o, "top")), Interp(GetOr(o, "width")), Interp(GetOr(o, "height"))))));
    RemoveAll(o, PlacementKeys)
  }

  /** A placement `left/top:widthxheight`. */
  function Geometry(left: string, top: string, width: string, height: string): string {
    left + "/" + top + ":" + width + "x" + height
  }

  /** The size and position keys the watermark consumes. */
  const PlacementKeys: seq<string> := ["width", "height", "left", "top"]

  /** `unset` of several keys. */
  function RemoveAll(o: seq<Entry>, names: seq<string>): (r: seq<Entry>)
    ensures forall n :: n in names ==> Get(r, n).None?
    ensures forall n :: n !in names ==> Get(r, n) == Get(o, n)
  {
    if names == [] then o else Remove(RemoveAll(o, names[1..]), names[0])
  }

  /** A caller's `composite.geometry` is kept as given. */
  lemma WatermarkKeepsGeometry(options: seq<Entry>, width: int, height: int)
    requires LastValue(options, "composite.geometry").Some?
    ensures Get(WatermarkSettings(options, width, height), "composite.geometry") == LastValue(options, "composite.geometry")
  {
    MergeGet(WatermarkDefaults(width, height), options, "composite.geometry");
  }

  /** With no caller options the watermark covers the whole output. */
  lemma WatermarkDefaultGeometry(width: int, height: int)
    ensures Get(WatermarkSettings([], width, height), "composite.geometry")
      == Some(Leaf(Str(Geometry("0", "0", IntToString(width), IntToString(height)))))
  {
    WatermarkDefaultsAlone(width, height);
    PlaceAtOrigin(Merge(WatermarkDefaults(width, height), []), width, height);
  }

  /** A full-size placement at 0/0 without a given geometry. */
  lemma PlaceAtOrigin(o: seq<Entry>, width: int, height: int)
    requires Get(o, "width") == Some(Leaf(Num(width))) && Get(o, "height") == Some(Leaf(Num(height)))
    requires Get(o, "left") == Some(Leaf(Num(0))) && Get(o, "top") == Some(Leaf(Num(0)))
    requires Get(o, "composite.geometry").None?
    ensures Get(Place(o), "composite.geometry") == Some(Leaf(Str(Geometry("0", "0", IntToString(width), IntToString(height)))))
  {
    assert Interp(GetOr(o, "left")) == "0" && Interp(GetOr(o, "top")) == "0" by {
      assert IntToString(0) == "0";
    }
  }

  /** What the defaults of a watermark give when the caller passes no
      options. */
  lemma WatermarkDefaultsAlone(width: int, height: int)
    ensures var m := Merge(WatermarkDefaults(width, height), []);
      && Get(m, "width") == Some(Leaf(Num(width))) && Get(m, "height") == Some(Leaf(Num(height)))
      && Get(m, "left") == Some(Leaf(Num(0))) && Get(m, "top") == Some(Leaf(Num(0)))
      && Get(m, "composite.geometry").None?
  {
    var d := WatermarkDefaults(width, height);
    var m := Merge(d, []);
    assert Get(m, "width") == Some(Leaf(Num(width))) by { MergeGet(d, [], "width"); LastValueFour(d, "width"); }
    assert Get(m, "height") == Some(Leaf(Num(height))) by { MergeGet(d, [], "height"); LastValueFour(d, "height"); }
    assert Get(m, "left") == Some(Leaf(Num(0))) by { MergeGet(d, [], "left"); LastValueFour(d, "left"); }
    assert Get(m, "top") == Some(Leaf(Num(0))) by { MergeGet(d, [], "top"); LastValueFour(d, "top"); }
    assert Get(m, "composite.geometry").None? by {
      MergeGet(d, [], "composite.geometry");
      LastValueFour(d, "composite.geometry");
    }
  }

  /** The option `addWatermark` appends. */
  function WatermarkOption(filePath: string, attachToAll: bool, options: seq<Entry>, width: int, height: int): seq<Entry> {
    Attach(attachToAll, "watermark:" + filePath, WatermarkSettings(options, width, height))
  }

  /** The option `addBackgroundAudio` appends: an `audio-track` of the file,
      preceded by a `blank` of the given delay when there is one, and
      followed by the remaining options. */
  function BackgroundAudioOption(filePath: string, options: seq<Entry>): (r: seq<Entry>)
    ensures |r| == 1 && r[0].0 == Named("audio-track") && r[0].1.List?
    ensures var track := r[0].1.entries;
      && |track| == (if Get(options, "delay").Some? then 3 else 2)
      && track[|track| - 2].1 == Leaf(Str(filePath))
      && track[|track| - 1].1.List? && Get(track[|track| - 1].1.entries, "delay").None?
      && (Get(options, "delay").Some? ==>
            track[0].1 == List([(Named("blank"), List([(Pos(0), Get(options, "delay").value)]))]))
    ensures var track := r[0].1.entries;
      forall n :: n != "delay" ==> Get(track[|track| - 1].1.entries, n) == Get(options, n)
  {
    var input :=
      match Get(options, "delay")
      case Some(delay) => [(Pos(0), List([(Named("blank"), List([(Pos(0), delay)]))])), (Pos(1), Leaf(Str(filePath)))]
      case None => [(Pos(0), Leaf(Str(filePath)))];
    var rest := if Get(options, "delay").Some? then Remove(options, "delay") else options;
    [(Named("audio-track"), List(input + [(Pos(|input|), List(rest))]))]
  }

  /** `disableAudio`: the structural `clipOption` key with `audio_index=-1`. */
  const DisableAudioOption: seq<Entry> := [(Named("clipOption"), List([Number("audio_index", -1)]))]

  /** `disableVideo`: the structural `clipOption` key with `video_index=-1`. */
  const DisableVideoOption: seq<Entry> := [(Named("clipOption"), List([Number("video_index", -1)]))]
}
