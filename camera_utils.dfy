/**
 * `CameraUtils`: the camcorder profile chosen for a resolution preset, the
 * preview size's cap at `high`, the comparator by area and the largest
 * capture size. Which qualities a device has is a parameter.
 */
module CameraUtils {
  import opened Base

  /** The Dart side's resolution presets, in their declaration order. */
  datatype Preset = Low | Medium | High | VeryHigh | UltraHigh | Max
  {
    function Ordinal(): nat
    {
      match this
      case Low => 0
      case Medium => 1
      case High => 2
      case VeryHigh => 3
      case UltraHigh => 4
      case Max => 5
    }
  }

  /** The `CamcorderProfile` qualities the chain asks about. */
  datatype Quality = QualityHigh | Quality2160P | Quality1080P | Quality720P | Quality480P | QualityQvga | QualityLow

  datatype Size = Size(width: int, height: int)
  {
    function Area(): int
    {
      width * height
    }
  }

  /** One step of the chain: this quality when the device has it, otherwise what follows. */
  function Prefer(q: Quality, has: Quality -> bool, otherwise: Outcome<Quality>): Outcome<Quality>
  {
    if has(q) then Ok(q) else otherwise
  }

  /** The end of every chain: the low quality, or the exception when even that is missing. */
  function LowOrThrow(has: Quality -> bool): Outcome<Quality>
  {
    if has(QualityLow) then Ok(QualityLow) else Threw(IllegalArgument)
  }

  /** `getBestAvailableCamcorderProfileForResolutionPreset`, branch by branch. */
  function BestProfile(preset: Option<Preset>, has: Quality -> bool): (r: Outcome<Quality>)
    ensures r.Ok? ==> has(r.value)
    ensures r.Threw? ==> r.fault == IllegalArgument && !has(QualityLow)
  {
    match preset
    case Some(Max) =>
      Prefer(QualityHigh, has, Prefer(Quality2160P, has, Prefer(Quality1080P, has, Prefer(Quality720P, has,
        Prefer(Quality480P, has, Prefer(QualityQvga, has, LowOrThrow(has)))))))
    case Some(UltraHigh) =>
      Prefer(Quality2160P, has, Prefer(Quality1080P, has, Prefer(Quality720P, has,
        Prefer(Quality480P, has, Prefer(QualityQvga, has, LowOrThrow(has))))))
    case Some(VeryHigh) =>
      Prefer(Quality1080P, has, Prefer(Quality720P, has, Prefer(Quality480P, has, Prefer(QualityQvga, has, LowOrThrow(has)))))
    case Some(High) =>
      Prefer(Quality720P, has, Prefer(Quality480P, has, Prefer(QualityQvga, has, LowOrThrow(has))))
    case Some(Medium) =>
      Prefer(Quality480P, has, Prefer(QualityQvga, has, LowOrThrow(has)))
    case Some(Low) =>
      Prefer(QualityQvga, has, LowOrThrow(has))
    case None =>
      LowOrThrow(has)
  }

  /** The full preference list, best first. */
  const ALL_QUALITIES: seq<Quality> :=
    [QualityHigh, Quality2160P, Quality1080P, Quality720P, Quality480P, QualityQvga, QualityLow]

  /** A preset's preference list: the full list from the preset's starting point. */
  function Preferences(preset: Option<Preset>): (qs: seq<Quality>)
    ensures qs != [] && qs[|qs| - 1] == QualityLow
  {
    var start := if preset.None? then 6 else 5 - preset.value.Ordinal();
    ALL_QUALITIES[start..]
  }

  /** The first quality of the list the device has; the exception when it has none. */
  function FirstAvailable(qs: seq<Quality>, has: Quality -> bool): (r: Outcome<Quality>)
    ensures r.Ok? ==> r.value in qs && has(r.value)
    ensures r.Ok? ==> exists i :: 0 <= i < |qs| && qs[i] == r.value && forall j :: 0 <= j < i ==> !has(qs[j])
    ensures r.Threw? <==> forall j :: 0 <= j < |qs| ==> !has(qs[j])
    ensures r.Threw? ==> r.fault == IllegalArgument
  {
    if qs == [] then Threw(IllegalArgument)
    else if has(qs[0]) then
      Ok(qs[0])
    else
      var r := FirstAvailable(qs[1..], has);
      if r.Ok? then
        var i :| 0 <= i < |qs[1..]| && qs[1..][i] == r.value && forall j :: 0 <= j < i ==> !has(qs[1..][j]);
        assert qs[i + 1] == r.value && forall j :: 0 <= j < i + 1 ==> !has(qs[j]);
        r
      else
        assert forall j :: 1 <= j < |qs| ==> qs[j] == qs[1..][j - 1];
        r
  }

  /**
   * Each branch of the chain returns the first quality of the preset's
   * list that the device has, and throws exactly when it has none of them.
   */
  lemma BestProfileIsFirstAvailable(preset: Option<Preset>, has: Quality -> bool)
    ensures BestProfile(preset, has) == FirstAvailable(Preferences(preset), has)
  {
    var qs := Preferences(preset);
    match preset
    case Some(Max) =>
      assert qs == [QualityHigh, Quality2160P, Quality1080P, Quality720P, Quality480P, QualityQvga, QualityLow];
      UnfoldFirst(qs, has);
      PreferAllStep(qs, has);
      PreferAllStep(qs[1..], has);
      PreferAllStep(qs[2..], has);
      PreferAllStep(qs[3..], has);
      PreferAllStep(qs[4..], has);
      PreferAllStep(qs[5..], has);
    case Some(UltraHigh) =>
      assert qs == [Quality2160P, Quality1080P, Quality720P, Quality480P, QualityQvga, QualityLow];
      UnfoldFirst(qs, has);
      PreferAllStep(qs, has);
      PreferAllStep(qs[1..], has);
      PreferAllStep(qs[2..], has);
      PreferAllStep(qs[3..], has);
      PreferAllStep(qs[4..], has);
    case Some(VeryHigh) =>
      assert qs == [Quality1080P, Quality720P, Quality480P, QualityQvga, QualityLow];
      UnfoldFirst(qs, has);
      PreferAllStep(qs, has);
      PreferAllStep(qs[1..], has);
      PreferAllStep(qs[2..], has);
      PreferAllStep(qs[3..], has);
    case Some(High) =>
      assert qs == [Quality720P, Quality480P, QualityQvga, QualityLow];
      UnfoldFirst(qs, has);
      PreferAllStep(qs, has);
      PreferAllStep(qs[1..], has);
      PreferAllStep(qs[2..], has);
    case Some(Medium) =>
      assert qs == [Quality480P, QualityQvga, QualityLow];
      UnfoldFirst(qs, has);
      PreferAllStep(qs, has);
      PreferAllStep(qs[1..], has);
    case Some(Low) =>
      assert qs == [QualityQvga, QualityLow];
      UnfoldFirst(qs, has);
      PreferAllStep(qs, has);
    case None =>
      assert qs == [QualityLow];
      UnfoldFirst(qs, has);
  }

  /** One unfolding of `PreferAll`. */
  lemma PreferAllStep(qs: seq<Quality>, has: Quality -> bool)
    requires |qs| > 1
    ensures PreferAll(qs, has) == Prefer(qs[0], has, PreferAll(qs[1..], has))
  {
  }

  /** `FirstAvailable` unrolled: a `Prefer` per element, ending in `LowOrThrow` at the low quality. */
  lemma {:induction false} UnfoldFirst(qs: seq<Quality>, has: Quality -> bool)
    requires qs != [] && qs[|qs| - 1] == QualityLow
    ensures FirstAvailable(qs, has) == PreferAll(qs, has)
    decreases |qs|
  {
    if |qs| > 1 {
      UnfoldFirst(qs[1..], has);
    } else {
      assert FirstAvailable(qs[1..], has) == Threw(IllegalArgument);
    }
  }

  /** A chain of `Prefer` steps over the list, ending in `LowOrThrow`. */
  function PreferAll(qs: seq<Quality>, has: Quality -> bool): Outcome<Quality>
    requires qs != []
  {
    if |qs| == 1 then LowOrThrow(has) else Prefer(qs[0], has, PreferAll(qs[1..], has))
  }

  /**
   * Every preset below `max` prefers the list of the preset above it
   * without its head, the absent preset only the low quality, and every
   * list ends with the low quality.
   */
  lemma PreferencesDropHead()
    ensures Preferences(Some(Max)) == ALL_QUALITIES
    ensures Preferences(Some(UltraHigh)) == Preferences(Some(Max))[1..]
    ensures Preferences(Some(VeryHigh)) == Preferences(Some(UltraHigh))[1..]
    ensures Preferences(Some(High)) == Preferences(Some(VeryHigh))[1..]
    ensures Preferences(Some(Medium)) == Preferences(Some(High))[1..]
    ensures Preferences(Some(Low)) == Preferences(Some(Medium))[1..]
    ensures Preferences(None) == Preferences(Some(Low))[1..] == [QualityLow]
  {
  }

  /** `computeBestPreviewSize`'s cap: presets above `high` become `high`. */
  function PreviewPreset(preset: Preset): (p: Preset)
    ensures p.Ordinal() <= High.Ordinal()
    ensures preset.Ordinal() <= High.Ordinal() ==> p == preset
  {
    if preset.Ordinal() > High.Ordinal() then High else preset
  }

  /** `computeBestPreviewSize`: the size of the profile chosen for the capped preset. */
  function BestPreviewSize(preset: Preset, has: Quality -> bool, sizeOf: Quality -> Size): (r: Outcome<Size>)
    ensures r.Threw? <==> forall q :: q in Preferences(Some(PreviewPreset(preset))) ==> !has(q)
    ensures r.Ok? ==> exists q :: q in Preferences(Some(PreviewPreset(preset))) && has(q) && r.value == sizeOf(q)
  {
    BestProfileIsFirstAvailable(Some(PreviewPreset(preset)), has);
    var q := BestProfile(Some(PreviewPreset(preset)), has);
    if q.Threw? then Threw(q.fault) else Ok(sizeOf(q.value))
  }

  /** The preview never uses a quality above 720p, and uses the best the device has up to it. */
  lemma PreviewAtMost720p(preset: Preset, has: Quality -> bool)
    ensures var q := BestProfile(Some(PreviewPreset(preset)), has);
      q.Ok? ==> q.value in [Quality720P, Quality480P, QualityQvga, QualityLow]
    ensures preset.Ordinal() >= High.Ordinal() ==>
      BestProfile(Some(PreviewPreset(preset)), has) == FirstAvailable([Quality720P, Quality480P, QualityQvga, QualityLow], has)
  {
    var p := PreviewPreset(preset);
    var qs := Preferences(Some(p));
    BestProfileIsFirstAvailable(Some(p), has);
    if preset.Ordinal() >= High.Ordinal() {
      assert p == High;
      assert qs == [Quality720P, Quality480P, QualityQvga, QualityLow];
    } else if preset == Medium {
      assert qs == [Quality480P, QualityQvga, QualityLow];
    } else {
      assert p == Low;
      assert qs == [QualityQvga, QualityLow];
    }
  }

  /** `CompareSizesByArea`: the sign of the area difference (the 64-bit products cannot overflow for 32-bit sides). */
  function CompareSizesByArea(lhs: Size, rhs: Size): (c: int)
  {
    var d := lhs.Area() - rhs.Area();
    if d > 0 then 1 else if d < 0 then -1 else 0
  }

  /** The comparator is antisymmetric, zero exactly on equal areas, and ordered as the areas are. */
  lemma CompareSizesByAreaOrder(a: Size, b: Size)
    ensures CompareSizesByArea(a, b) == -CompareSizesByArea(b, a)
    ensures CompareSizesByArea(a, b) == 0 <==> a.Area() == b.Area()
    ensures CompareSizesByArea(a, b) > 0 <==> a.Area() > b.Area()
    ensures -1 <= CompareSizesByArea(a, b) <= 1
  {
  }

  /** `s` is a size of the list with the largest area, the first such. */
  ghost predicate FirstLargest(sizes: seq<Size>, s: Size)
  {
    s in sizes &&
    (forall i :: 0 <= i < |sizes| ==> sizes[i].Area() <= s.Area()) &&
    exists i :: 0 <= i < |sizes| && sizes[i] == s && forall j :: 0 <= j < i ==> sizes[j].Area() < s.Area()
  }

  /** One more size: it replaces the first largest of the others only when strictly larger. */
  lemma FirstLargestSnoc(init: seq<Size>, next: Size, c: Size)
    requires FirstLargest(init, c)
    ensures FirstLargest(init + [next], if next.Area() > c.Area() then next else c)
  {
    var sizes := init + [next];
    var i :| 0 <= i < |init| && init[i] == c && forall j :: 0 <= j < i ==> init[j].Area() < c.Area();
    assert sizes[i] == c;
    assert forall j :: 0 <= j < |init| ==> sizes[j] == init[j];
    if next.Area() > c.Area() {
      assert sizes[|init|] == next;
    }
  }

  /**
   * `Collections.max` under the area comparator: a later size replaces the
   * candidate only when strictly larger, so the first of the largest wins.
   */
  function LargestByArea(sizes: seq<Size>): (s: Size)
    requires sizes != []
    ensures s in sizes
    ensures forall i :: 0 <= i < |sizes| ==> sizes[i].Area() <= s.Area()
    ensures exists i :: 0 <= i < |sizes| && sizes[i] == s && forall j :: 0 <= j < i ==> sizes[j].Area() < s.Area()
  {
    if |sizes| == 1 then
      sizes[0]
    else
      var init := sizes[..|sizes| - 1];
      var candidate := LargestByArea(init);
      var next := sizes[|sizes| - 1];
      FirstLargestSnoc(init, next, candidate);
      assert init + [next] == sizes;
      if CompareSizesByArea(next, candidate) > 0 then next else candidate
  }

  /** `computeBestCaptureSize`: the largest JPEG output size; an empty list throws. */
  function BestCaptureSize(jpegSizes: seq<Size>): (r: Outcome<Size>)
    ensures r.Threw? <==> jpegSizes == []
    ensures r.Ok? ==> r.value in jpegSizes && forall i :: 0 <= i < |jpegSizes| ==> jpegSizes[i].Area() <= r.value.Area()
  {
    if jpegSizes == [] then Threw(NoSuchElement) else Ok(LargestByArea(jpegSizes))
  }
}
