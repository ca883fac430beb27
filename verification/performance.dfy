/** The performance heuristics of src/hooks/usePerformance.ts: the device
    class from the viewport and two user-agent flags, animation settings
    from the refresh rate and the device class, the CSS class list built
    from the result, and the one-flag throttle of scroll handlers.

    The refresh rate arrives as a measured whole number of frames (the
    sampling itself is not modelled), the user-agent regular expressions as
    the two flags `isMobile` and `isTablet`, and the viewport as whole CSS
    pixels. */
module Performance {
  import opened Wrappers
  import opened Text

  datatype DeviceType = Mobile | Tablet | Desktop | Gaming

  datatype ScrollBehavior = Auto | Smooth

  datatype Metrics = Metrics(
    refreshRate: int,
    deviceType: DeviceType,
    isHighRefreshRate: bool,
    scrollBehavior: ScrollBehavior,
    animationDuration: int)

  /** The metrics before detection, kept when detection fails. */
  const Default: Metrics := Metrics(60, Desktop, false, Smooth, 300)

  /** `detectDeviceType`: gaming is checked first, then mobile, then
      tablet; desktop is what is left. */
  function DetectDeviceType(width: int, height: int, isMobile: bool, isTablet: bool): (d: DeviceType)
    ensures d == Gaming <==> !isMobile && !isTablet && width >= 1920 && height >= 1080
    ensures d == Mobile <==> isMobile && width <= 768
    ensures d == Tablet <==> !(isMobile && width <= 768) && (isTablet || (768 < width <= 1024))
  {
    if !isMobile && !isTablet && width >= 1920 && height >= 1080 then Gaming
    else if isMobile && width <= 768 then Mobile
    else if isTablet || (width > 768 && width <= 1024) then Tablet
    else Desktop
  }

  /** The alternative order: mobile first, then tablet, then gaming, then
      desktop. */
  function ClassifyMobileFirst(width: int, height: int, isMobile: bool, isTablet: bool): DeviceType {
    if isMobile && width <= 768 then Mobile
    else if isTablet || (768 < width <= 1024) then Tablet
    else if !isMobile && !isTablet && width >= 1920 && height >= 1080 then Gaming
    else Desktop
  }

  /** Checking gaming first or last makes no difference: the gaming test
      excludes both flags and every width the mobile and tablet tests
      accept. */
  lemma ClassificationOrderIrrelevant(width: int, height: int, isMobile: bool, isTablet: bool)
    ensures DetectDeviceType(width, height, isMobile, isTablet)
         == ClassifyMobileFirst(width, height, isMobile, isTablet)
  {
  }

  /** The part of the metrics `getOptimizedSettings` computes. */
  datatype Settings = Settings(isHighRefreshRate: bool, scrollBehavior: ScrollBehavior, animationDuration: int)

  /** `getOptimizedSettings`: a priority table, first match wins. */
  function GetOptimizedSettings(refreshRate: int, deviceType: DeviceType): (s: Settings)
    ensures s.isHighRefreshRate <==> refreshRate >= 90
    ensures s.scrollBehavior == Auto <==> s.isHighRefreshRate
    ensures s.animationDuration in {80, 150, 200, 300}
    ensures s.animationDuration == 300 <==> refreshRate < 90
    ensures s.animationDuration == 150 <==> deviceType == Mobile && refreshRate >= 120
    ensures s.animationDuration == 80 <==> deviceType == Gaming && refreshRate >= 240
  {
    var isHighRefreshRate := refreshRate >= 90;
    if deviceType == Mobile && refreshRate >= 120 then Settings(isHighRefreshRate, Auto, 150)
    else if deviceType == Gaming && refreshRate >= 240 then Settings(isHighRefreshRate, Auto, 80)
    else if isHighRefreshRate then Settings(isHighRefreshRate, Auto, 200)
    else Settings(isHighRefreshRate, Smooth, 300)
  }

  /** For a fixed device class a faster display never gets a longer
      animation. */
  lemma DurationNonIncreasing(r1: int, r2: int, deviceType: DeviceType)
    requires r1 <= r2
    ensures GetOptimizedSettings(r2, deviceType).animationDuration
         <= GetOptimizedSettings(r1, deviceType).animationDuration
  {
  }

  /** Metrics whose settings are those the table gives for their refresh
      rate and device class. */
  predicate Consistent(m: Metrics) {
    GetOptimizedSettings(m.refreshRate, m.deviceType)
      == Settings(m.isHighRefreshRate, m.scrollBehavior, m.animationDuration)
  }

  /** The defaults are exactly what detection yields for a 60 Hz desktop. */
  lemma DefaultConsistent()
    ensures Consistent(Default)
  {
  }

  /** The metrics after initialisation: from a measured refresh rate, or
      the defaults when the measurement failed (`sample` is None). */
  function Initialize(sample: Option<int>, width: int, height: int, isMobile: bool, isTablet: bool): (m: Metrics)
    ensures sample.None? ==> m == Default
    ensures sample.Some? ==> m.refreshRate == sample.value
    ensures sample.Some? ==> m.deviceType == DetectDeviceType(width, height, isMobile, isTablet)
    ensures Consistent(m)
  {
    match sample
    case None => Default
    case Some(rate) =>
      var deviceType := DetectDeviceType(width, height, isMobile, isTablet);
      var s := GetOptimizedSettings(rate, deviceType);
      Metrics(rate, deviceType, s.isHighRefreshRate, s.scrollBehavior, s.animationDuration)
  }

  /** The classes `getPerformanceClass` can emit, in the order it emits
      them. */
  datatype CssClass =
    | PerformanceOptimized
    | HighRefreshRate
    | MobileOptimized
    | GamingOptimized
    | UltraHighRefresh

  /** The class attribute value of each class. */
  function Name(c: CssClass): (s: string)
    ensures |s| > 0 && Lacks(s, ' ')
  {
    match c
    case PerformanceOptimized => "performance-optimized"
    case HighRefreshRate => "high-refresh-rate"
    case MobileOptimized => "mobile-optimized"
    case GamingOptimized => "gaming-optimized"
    case UltraHighRefresh => "ultra-high-refresh"
  }

  /** The position of a class in the emission order. */
  function Rank(c: CssClass): nat {
    match c
    case PerformanceOptimized => 0
    case HighRefreshRate => 1
    case MobileOptimized => 2
    case GamingOptimized => 3
    case UltraHighRefresh => 4
  }

  /** The `classes` array of `getPerformanceClass`: the base class, then
      each optional class whose condition holds, in the fixed order. */
  function ClassList(m: Metrics): (cs: seq<CssClass>)
    ensures |cs| >= 1 && cs[0] == PerformanceOptimized
    ensures forall i, j :: 0 <= i < j < |cs| ==> Rank(cs[i]) < Rank(cs[j])
    ensures HighRefreshRate in cs <==> m.isHighRefreshRate
    ensures MobileOptimized in cs <==> m.deviceType == Mobile
    ensures GamingOptimized in cs <==> m.deviceType == Gaming
    ensures UltraHighRefresh in cs <==> m.refreshRate >= 240
    ensures !(MobileOptimized in cs && GamingOptimized in cs)
  {
    [PerformanceOptimized]
      + (if m.isHighRefreshRate then [HighRefreshRate] else [])
      + (if m.deviceType == Mobile then [MobileOptimized] else [])
      + (if m.deviceType == Gaming then [GamingOptimized] else [])
      + (if m.refreshRate >= 240 then [UltraHighRefresh] else [])
  }

  /** The attribute values of a list of classes. */
  function Names(cs: seq<CssClass>): (ns: seq<string>)
    ensures |ns| == |cs|
    ensures forall i :: 0 <= i < |cs| ==> ns[i] == Name(cs[i])
  {
    seq(|cs|, i requires 0 <= i < |cs| => Name(cs[i]))
  }

  /** `getPerformanceClass`: the class names joined by single spaces. A
      browser splitting the attribute at spaces gets the list back. */
  function PerformanceClass(m: Metrics): (s: string)
    ensures StartsWith(s, "performance-optimized")
    ensures Split(s, ' ') == Names(ClassList(m))
  {
    var ns := Names(ClassList(m));
    assert forall i :: 0 <= i < |ns| ==> Lacks(ns[i], ' ');
    SplitJoin(ns, ' ');
    Join(ns, ' ')
  }

  /** For consistent metrics an ultra-high refresh rate is also a high
      one: `ultra-high-refresh` never comes without `high-refresh-rate`. */
  lemma UltraImpliesHigh(m: Metrics)
    requires Consistent(m)
    requires UltraHighRefresh in ClassList(m)
    ensures HighRefreshRate in ClassList(m)
  {
  }

  /** The closure state of a handler made by
      `createOptimizedScrollHandler`: the `ticking` flag and the frame
      callbacks requested but not yet run, each holding its event. */
  datatype Throttle<E> = Throttle(ticking: bool, scheduled: seq<E>)

  /** A fresh handler. */
  function NewThrottle<E>(): (t: Throttle<E>)
    ensures !t.ticking && t.scheduled == []
  {
    Throttle(false, [])
  }

  /** At most one callback is pending, and exactly while `ticking`. */
  predicate ThrottleInv<E>(t: Throttle<E>) {
    && |t.scheduled| <= 1
    && (t.ticking <==> |t.scheduled| == 1)
  }

  /** The returned handler on a scroll event: when not ticking it requests
      one frame callback for this event and sets `ticking`; otherwise the
      event is dropped. */
  function OnScroll<E>(t: Throttle<E>, e: E): (r: Throttle<E>)
    ensures t.ticking ==> r == t
    ensures !t.ticking ==> r.ticking && r.scheduled == t.scheduled + [e]
    ensures ThrottleInv(t) ==> ThrottleInv(r)
  {
    if !t.ticking then Throttle(true, t.scheduled + [e]) else t
  }

  /** A frame: every pending callback runs the wrapped handler with its
      event and clears `ticking`. Returns the events handled. */
  function OnFrame<E>(t: Throttle<E>): (r: (Throttle<E>, seq<E>))
    ensures !r.0.ticking && r.0.scheduled == []
    ensures r.1 == t.scheduled
    ensures ThrottleInv(t) ==> |r.1| <= 1
  {
    (Throttle(false, []), t.scheduled)
  }

  datatype Input<E> = Scroll(event: E) | Frame

  /** Number of frames in a sequence of inputs. */
  function Frames<E>(ins: seq<Input<E>>): nat {
    if |ins| == 0 then 0 else (if ins[0].Frame? then 1 else 0) + Frames(ins[1..])
  }

  /** Number of scroll events in a sequence of inputs. */
  function Scrolls<E>(ins: seq<Input<E>>): nat {
    if |ins| == 0 then 0 else (if ins[0].Scroll? then 1 else 0) + Scrolls(ins[1..])
  }

  /** Feeds scroll events and frames to a handler; returns its final state
      and the events the wrapped handler saw, in order. */
  function RunThrottle<E>(t: Throttle<E>, ins: seq<Input<E>>): (Throttle<E>, seq<E>)
    decreases |ins|
  {
    if |ins| == 0 then (t, [])
    else match ins[0]
      case Scroll(e) => RunThrottle(OnScroll(t, e), ins[1..])
      case Frame =>
        var (t', done) := OnFrame(t);
        var (t'', rest) := RunThrottle(t', ins[1..]);
        (t'', done + rest)
  }

  /** The wrapped handler runs at most once per frame and never more often
      than events arrived, and the throttle state stays well formed. */
  lemma {:induction false} ThrottleBound<E>(t: Throttle<E>, ins: seq<Input<E>>)
    requires ThrottleInv(t)
    ensures ThrottleInv(RunThrottle(t, ins).0)
    ensures |RunThrottle(t, ins).1| <= Frames(ins)
    ensures |RunThrottle(t, ins).1| + |RunThrottle(t, ins).0.scheduled| <= Scrolls(ins) + |t.scheduled|
    decreases |ins|
  {
    if |ins| > 0 {
      match ins[0]
      case Scroll(e) =>
        ThrottleBound(OnScroll(t, e), ins[1..]);
      case Frame =>
        ThrottleBound(OnFrame(t).0, ins[1..]);
    }
  }
}
