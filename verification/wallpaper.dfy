/**
  The wallpaper settings store: the device catalogue, the watermark anchor
  table and its layout descriptor, the default settings, and the derived
  views and the one mutation the store exposes (src/composables/useWallpaper.ts).

  The reactive `ref`/`computed` machinery becomes a plain `Store` value and
  pure functions of it; a computed view is recomputed on every read, so no
  stale value can be observed.
 */
module Wallpaper {
  import opened Opt
  import Strings

  // ---------------------------------------------------------------------
  // Data model
  // ---------------------------------------------------------------------

  /** A device preset. `selected` is optional: catalogue entries leave it
      undefined, the preview list sets it explicitly. */
  datatype Device = Device(id: string, name: string, width: nat, height: nat, selected: Option<bool>)

  datatype FontOption = FontOption(id: string, name: string, value: string)

  /** The five watermark anchors. */
  datatype Position = TopLeft | TopRight | BottomLeft | BottomRight | Center

  datatype PositionOption = PositionOption(value: string, caption: string)

  datatype WatermarkSettings = WatermarkSettings(
    text: string,
    fontSize: int,
    color: string,
    opacity: real,
    fontFamily: string,
    position: Position,
    padding: int,
    rotation: int)

  datatype PreviewSettings = PreviewSettings(
    selectedDevice: string,
    showCombined: bool,
    backgroundColor: string,
    showDeviceBorder: bool,
    devices: seq<Device>)

  /** Everything `useWallpaper` keeps in refs. */
  datatype Store = Store(imageUrl: string, watermark: WatermarkSettings, preview: PreviewSettings)

  /** A CSS edge an anchor can pin. */
  datatype Edge = Top | Right | Bottom | Left

  /** The style object bound to the watermark: each property is either set or absent. */
  datatype PositionStyle = PositionStyle(
    top: Option<string>,
    right: Option<string>,
    bottom: Option<string>,
    left: Option<string>,
    transform: Option<string>)
  {
    function Edge(e: Edge): Option<string> {
      match e
      case Top => top
      case Right => right
      case Bottom => bottom
      case Left => left
    }
  }

  // ---------------------------------------------------------------------
  // Static tables
  // ---------------------------------------------------------------------

  const DeviceTypes: seq<Device> := [
    Device("iphone", "iPhone", 390, 844, None),
    Device("ipad", "iPad", 820, 1180, None),
    Device("mac", "Mac", 1440, 900, None),
    Device("xiaohongshu", "小红书", 1080, 1920, None)
  ]

  const FontList: seq<FontOption> := [
    FontOption("1", "Arial", "Arial"),
    FontOption("2", "Verdana", "Verdana"),
    FontOption("3", "Helvetica", "Helvetica"),
    FontOption("4", "Tahoma", "Tahoma"),
    FontOption("5", "Times", "Times"),
    FontOption("6", "Courier", "Courier"),
    FontOption("7", "Georgia", "Georgia"),
    FontOption("8", "Palatino", "Palatino"),
    FontOption("9", "Garamond", "Garamond"),
    FontOption("10", "Bookman", "Bookman"),
    FontOption("11", "Comic Sans MS", "Comic Sans MS"),
    FontOption("12", "Trebuchet MS", "Trebuchet MS"),
    FontOption("13", "Arial Black", "Arial Black"),
    FontOption("14", "Impact", "Impact"),
    FontOption("15", "Lucida Sans", "Lucida Sans"),
    FontOption("16", "Lucida Console", "Lucida Console"),
    FontOption("17", "Monaco", "Monaco"),
    FontOption("18", "Copperplate", "Copperplate"),
    FontOption("19", "PingFang SC", "PingFang SC"),
    FontOption("20", "Microsoft YaHei", "Microsoft YaHei"),
    FontOption("21", "SimHei", "SimHei"),
    FontOption("22", "SimSun", "SimSun"),
    FontOption("23", "KaiTi", "KaiTi"),
    FontOption("24", "FangSong", "FangSong")
  ]

  const PositionOptions: seq<PositionOption> := [
    PositionOption("top-left", "左上角"),
    PositionOption("top-right", "右上角"),
    PositionOption("bottom-left", "左下角"),
    PositionOption("bottom-right", "右下角"),
    PositionOption("center", "居中")
  ]

  /** The string each anchor is written as in settings and in PositionOptions. */
  function PositionValue(p: Position): string {
    match p
    case TopLeft => "top-left"
    case TopRight => "top-right"
    case BottomLeft => "bottom-left"
    case BottomRight => "bottom-right"
    case Center => "center"
  }

  /** Reading an anchor back from its string; any other string names no anchor
      (the source's style lookup yields `undefined` for it). */
  function PositionFromValue(s: string): (r: Option<Position>)
    ensures r.Some? ==> PositionValue(r.value) == s
  {
    if s == "top-left" then Some(TopLeft)
    else if s == "top-right" then Some(TopRight)
    else if s == "bottom-left" then Some(BottomLeft)
    else if s == "bottom-right" then Some(BottomRight)
    else if s == "center" then Some(Center)
    else None
  }

  /** An anchor's string and the anchor determine each other. */
  lemma PositionValueRoundTrip(p: Position, s: string)
    ensures PositionFromValue(s) == Some(p) <==> s == PositionValue(p)
  {
  }

  /** Where each anchor sits in the option table. */
  function OptionIndex(p: Position): nat {
    match p
    case TopLeft => 0
    case TopRight => 1
    case BottomLeft => 2
    case BottomRight => 3
    case Center => 4
  }

  /** The option table lists every anchor exactly once, in declaration order,
      and lists nothing else. */
  lemma PositionOptionsCoverAnchors()
    ensures |PositionOptions| == 5
    ensures forall p: Position :: OptionIndex(p) < |PositionOptions| && PositionOptions[OptionIndex(p)].value == PositionValue(p)
    ensures forall i :: 0 <= i < |PositionOptions| ==> PositionFromValue(PositionOptions[i].value).Some?
    ensures forall i, j :: 0 <= i < j < |PositionOptions| ==> PositionOptions[i].value != PositionOptions[j].value
  {
  }

  // ---------------------------------------------------------------------
  // Device lookup
  // ---------------------------------------------------------------------

  /** Index of the first device with the given id (`Array.prototype.findIndex`). */
  function FirstIndexOf(devices: seq<Device>, id: string): (r: Option<nat>)
    ensures r.Some? ==> r.value < |devices| && devices[r.value].id == id
    ensures r.Some? ==> forall j :: 0 <= j < r.value ==> devices[j].id != id
    ensures r.None? <==> forall j :: 0 <= j < |devices| ==> devices[j].id != id
  {
    if devices == [] then None
    else if devices[0].id == id then Some(0)
    else match FirstIndexOf(devices[1..], id)
      case None => None
      case Some(k) => Some(k + 1)
  }

  /** The first catalogue entry with the given id, or none. */
  function GetDeviceById(id: string): (r: Option<Device>)
    ensures r.Some? ==> r.value in DeviceTypes && r.value.id == id
    ensures r.Some? ==> exists i :: 0 <= i < |DeviceTypes| && DeviceTypes[i] == r.value
                           && forall j :: 0 <= j < i ==> DeviceTypes[j].id != id
    ensures r.None? <==> forall d :: d in DeviceTypes ==> d.id != id
  {
    match FirstIndexOf(DeviceTypes, id)
    case None => None
    case Some(i) => Some(DeviceTypes[i])
  }

  /** Catalogue ids resolve to their entries. */
  lemma CatalogueHits()
    ensures GetDeviceById("iphone") == Some(Device("iphone", "iPhone", 390, 844, None))
    ensures GetDeviceById("mac") == Some(DeviceTypes[2])
  {
    assert DeviceTypes[0].id == "iphone";
    assert DeviceTypes[1].id != "mac" && DeviceTypes[2].id == "mac";
  }

  /** Ids outside the catalogue resolve to nothing. */
  lemma CatalogueMisses()
    ensures GetDeviceById("custom") == None
    ensures GetDeviceById("") == None
  {
    assert forall d :: d in DeviceTypes ==> |d.id| >= 3 && d.id[0] != 'c';
  }

  // ---------------------------------------------------------------------
  // Watermark layout descriptor
  // ---------------------------------------------------------------------

  /** `n + 'px'`. */
  function Px(n: int): string {
    Strings.IntToString(n) + "px"
  }

  const CenterTranslate: string := "translate(-50%, -50%) rotate("

  /** The transform of the centre anchor: self-centring, then the rotation in degrees. */
  function CenterTransform(rotation: int): string {
    CenterTranslate + Strings.IntToString(rotation) + "deg)"
  }

  /** The two edges a corner anchor pins; the centre pins none by padding. */
  function CornerEdges(p: Position): set<Edge> {
    match p
    case TopLeft => {Top, Left}
    case TopRight => {Top, Right}
    case BottomLeft => {Bottom, Left}
    case BottomRight => {Bottom, Right}
    case Center => {}
  }

  /** The style object for the watermark: a corner anchor pins its two edges at
      `padding` px and sets nothing else; the centre anchor sits at 50%/50% and
      carries the centring translation followed by the rotation. */
  function GetWatermarkPositionStyle(w: WatermarkSettings): (r: PositionStyle)
    ensures w.position != Center ==>
      && r.transform == None
      && forall e: Edge :: r.Edge(e) == (if e in CornerEdges(w.position) then Some(Px(w.padding)) else None)
    ensures w.position == Center ==>
      && r.top == Some("50%") && r.left == Some("50%")
      && r.right == None && r.bottom == None
      && r.transform.Some? && Strings.StartsWith(r.transform.value, "translate(-50%, -50%)")
  {
    var pad := Some(Px(w.padding));
    var r := match w.position
      case TopLeft => PositionStyle(pad, None, None, pad, None)
      case TopRight => PositionStyle(pad, pad, None, None, None)
      case BottomLeft => PositionStyle(None, None, pad, pad, None)
      case BottomRight => PositionStyle(None, pad, pad, None, None)
      case Center => PositionStyle(Some("50%"), None, None, Some("50%"), Some(CenterTransform(w.rotation)));
    Strings.StartsWithConcat(CenterTranslate, Strings.IntToString(w.rotation) + "deg)");
    assert CenterTransform(w.rotation) == CenterTranslate + (Strings.IntToString(w.rotation) + "deg)");
    assert Strings.StartsWith(CenterTranslate, "translate(-50%, -50%)");
    r
  }

  /** Corners ignore the rotation; the centre ignores the padding. */
  lemma StyleIgnoresIrrelevantSettings(w: WatermarkSettings, padding: int, rotation: int)
    ensures w.position != Center ==>
      GetWatermarkPositionStyle(w.(rotation := rotation)) == GetWatermarkPositionStyle(w)
    ensures w.position == Center ==>
      GetWatermarkPositionStyle(w.(padding := padding)) == GetWatermarkPositionStyle(w)
    ensures GetWatermarkPositionStyle(w.(text := "", fontSize := 0, color := "", opacity := 0.0, fontFamily := ""))
         == GetWatermarkPositionStyle(w)
  {
  }

  /** Reads the number out of an `<n>px` length. */
  function ParsePx(s: string): Option<int> {
    if |s| >= 2 && s[|s| - 2..] == "px" then Strings.ParseInt(s[..|s| - 2]) else None
  }

  /** Reads the rotation back out of a centre transform. */
  function ParseCenterTransform(s: string): Option<int> {
    if Strings.StartsWith(s, CenterTranslate) && |s| >= |CenterTranslate| + 4 && s[|s| - 4..] == "deg)"
    then Strings.ParseInt(s[|CenterTranslate|..|s| - 4])
    else None
  }

  /** Recovers the anchor from a style object, with the padding (corners) or
      the rotation (centre) it encodes. */
  function DecodeStyle(st: PositionStyle): Option<(Position, int)> {
    if st.transform.Some? then
      if st.top == Some("50%") && st.left == Some("50%") && st.right.None? && st.bottom.None? then
        match ParseCenterTransform(st.transform.value)
        case Some(rot) => Some((Center, rot))
        case None => None
      else None
    else
      var vertical := if st.top.Some? && st.bottom.None? then Some(Top)
                      else if st.bottom.Some? && st.top.None? then Some(Bottom) else None;
      var horizontal := if st.left.Some? && st.right.None? then Some(Left)
                        else if st.right.Some? && st.left.None? then Some(Right) else None;
      if vertical.None? || horizontal.None? then None
      else
        var p := match (vertical.value, horizontal.value)
          case (Top, Left) => TopLeft
          case (Top, _) => TopRight
          case (_, Left) => BottomLeft
          case (_, _) => BottomRight;
        var a := st.Edge(vertical.value).value;
        var b := st.Edge(horizontal.value).value;
        if a != b then None
        else match ParsePx(a)
          case Some(n) => Some((p, n))
          case None => None
  }

  lemma ParsePxOfPx(n: int)
    ensures ParsePx(Px(n)) == Some(n)
  {
    var s := Px(n);
    assert s[..|s| - 2] == Strings.IntToString(n);
    assert s[|s| - 2..] == "px";
    Strings.ParseIntOfIntToString(n);
  }

  lemma ParseCenterTransformOfCenterTransform(rotation: int)
    ensures ParseCenterTransform(CenterTransform(rotation)) == Some(rotation)
  {
    var d := Strings.IntToString(rotation);
    var s := CenterTransform(rotation);
    assert s == CenterTranslate + d + "deg)";
    Strings.StartsWithConcat(CenterTranslate, d + "deg)");
    assert s == CenterTranslate + (d + "deg)");
    assert s[|s| - 4..] == "deg)";
    assert s[|CenterTranslate|..|s| - 4] == d;
    Strings.ParseIntOfIntToString(rotation);
  }

  /** The style object loses nothing the anchor uses: the anchor and its
      padding (corner) or rotation (centre) can be read back from it. */
  lemma {:induction false} DecodeStyleRoundTrip(w: WatermarkSettings)
    ensures DecodeStyle(GetWatermarkPositionStyle(w))
         == Some((w.position, if w.position == Center then w.rotation else w.padding))
  {
    if w.position == Center {
      ParseCenterTransformOfCenterTransform(w.rotation);
    } else {
      ParsePxOfPx(w.padding);
    }
  }

  // ---------------------------------------------------------------------
  // Defaults and the store
  // ---------------------------------------------------------------------

  const DefaultWatermarkSettings: WatermarkSettings :=
    WatermarkSettings("Wallpaper", 24, "#ffffff", 0.5, "Arial", BottomRight, 20, 0)

  /** The catalogue with every device explicitly unselected. */
  function UnselectedCatalogue(): (ds: seq<Device>)
    ensures |ds| == |DeviceTypes|
    ensures forall i :: 0 <= i < |ds| ==> ds[i] == DeviceTypes[i].(selected := Some(false))
  {
    seq(|DeviceTypes|, i requires 0 <= i < |DeviceTypes| => DeviceTypes[i].(selected := Some(false)))
  }

  const DefaultPreviewSettings: PreviewSettings :=
    PreviewSettings("iphone", false, "#ffffff", true, UnselectedCatalogue())

  /** The state a fresh `useWallpaper()` starts from. The device list is a
      value owned by this store. */
  function UseWallpaper(): (s: Store)
    ensures s.imageUrl == ""
    ensures s.watermark.position == BottomRight && s.watermark.padding == 20 && s.watermark.rotation == 0
    ensures s.preview.selectedDevice == "iphone"
    ensures |s.preview.devices| == |DeviceTypes|
    ensures forall i :: 0 <= i < |s.preview.devices| ==>
              s.preview.devices[i].id == DeviceTypes[i].id && s.preview.devices[i].selected == Some(false)
    ensures FlagsDefined(s.preview.devices)
  {
    Store("", DefaultWatermarkSettings, DefaultPreviewSettings)
  }

  /** The default font is one the font table offers. */
  lemma DefaultFontListed()
    ensures exists i :: 0 <= i < |FontList| && FontList[i].value == DefaultWatermarkSettings.fontFamily
  {
    assert FontList[0].value == "Arial";
  }

  /** The fresh store shows the iPhone and has no selected device. */
  lemma InitialDevices()
    ensures SelectedDeviceInfo(UseWallpaper()) == DeviceTypes[0]
    ensures SelectedDevices(UseWallpaper().preview.devices) == []
  {
    NoneSelectedFiltersEmpty(UseWallpaper().preview.devices);
  }

  /** The fresh store places the watermark bottom-right, 20px in from both edges. */
  lemma InitialWatermarkStyle()
    ensures GetWatermarkPositionStyle(UseWallpaper().watermark)
         == PositionStyle(None, Some("20px"), Some("20px"), None, None)
  {
    assert Strings.NatToString(2) == "2";
    assert Strings.NatToString(20) == "2" + "0";
    assert Px(20) == "20px";
  }

  // ---------------------------------------------------------------------
  // Derived views
  // ---------------------------------------------------------------------

  /** `watermarkText`: the text the watermark settings hold, verbatim. */
  function WatermarkText(s: Store): string {
    s.watermark.text
  }

  /** `watermarkPositionStyle`: the style of the current settings, from which
      the anchor and its padding (corner) or rotation (centre) can be read back. */
  function WatermarkPositionStyle(s: Store): (st: PositionStyle)
    ensures DecodeStyle(st) == Some((s.watermark.position,
                                     if s.watermark.position == Center then s.watermark.rotation else s.watermark.padding))
  {
    DecodeStyleRoundTrip(s.watermark);
    GetWatermarkPositionStyle(s.watermark)
  }

  /** The catalogue entry for the selected id, or the first catalogue entry
      ('iphone') when the id names none. Never undefined. */
  function SelectedDeviceInfo(s: Store): (d: Device)
    ensures d in DeviceTypes
    ensures (exists e :: e in DeviceTypes && e.id == s.preview.selectedDevice) ==> d.id == s.preview.selectedDevice
    ensures (forall e :: e in DeviceTypes ==> e.id != s.preview.selectedDevice) ==> d == DeviceTypes[0] && d.id == "iphone"
  {
    GetDeviceById(s.preview.selectedDevice).GetOr(DeviceTypes[0])
  }

  /** JavaScript truthiness of an optional boolean. */
  predicate IsSelected(d: Device) {
    d.selected == Some(true)
  }

  /** Number of selected devices; the reference the filtered view is measured against. */
  function CountSelected(ds: seq<Device>): nat {
    if ds == [] then 0 else (if IsSelected(ds[0]) then 1 else 0) + CountSelected(ds[1..])
  }

  /** `a` is `b` with some elements dropped, order kept. */
  ghost predicate IsSubsequence<T>(a: seq<T>, b: seq<T>)
    decreases |b|
  {
    if a == [] then true
    else if b == [] then false
    else (a[0] == b[0] && IsSubsequence(a[1..], b[1..])) || IsSubsequence(a, b[1..])
  }

  /** `devices.filter(d => d.selected)`. */
  function SelectedDevices(ds: seq<Device>): (r: seq<Device>)
    ensures IsSubsequence(r, ds)
    ensures |r| == CountSelected(ds)
    ensures forall d :: d in r ==> IsSelected(d)
    ensures forall d :: d in ds && IsSelected(d) ==> d in r
  {
    if ds == [] then []
    else
      var rest := SelectedDevices(ds[1..]);
      if IsSelected(ds[0]) then [ds[0]] + rest else rest
  }

  lemma {:induction false} NoneSelectedFiltersEmpty(ds: seq<Device>)
    requires forall i :: 0 <= i < |ds| ==> ds[i].selected == Some(false)
    ensures SelectedDevices(ds) == []
  {
    if ds != [] {
      NoneSelectedFiltersEmpty(ds[1..]);
    }
  }

  // ---------------------------------------------------------------------
  // Mutation
  // ---------------------------------------------------------------------

  /** `!d.selected`: an undefined flag negates to true. */
  function Flip(d: Device): Device {
    d.(selected := Some(!IsSelected(d)))
  }

  /** Every device carries an explicit selection flag. */
  predicate FlagsDefined(ds: seq<Device>) {
    forall i :: 0 <= i < |ds| ==> ds[i].selected.Some?
  }

  /** Flips the selection of the first device with the given id; absent id: no change. */
  function ToggleInList(ds: seq<Device>, id: string): (r: seq<Device>)
    ensures |r| == |ds|
    ensures forall j :: 0 <= j < |ds| ==>
      (r[j].id == ds[j].id && r[j].name == ds[j].name && r[j].width == ds[j].width && r[j].height == ds[j].height)
    ensures FirstIndexOf(ds, id).None? ==> r == ds
    ensures FirstIndexOf(ds, id).Some? ==>
      var i := FirstIndexOf(ds, id).value;
      && IsSelected(r[i]) == !IsSelected(ds[i]) && r[i].selected.Some?
      && forall j :: 0 <= j < |ds| && j != i ==> r[j] == ds[j]
  {
    match FirstIndexOf(ds, id)
    case None => ds
    case Some(i) => ds[i := Flip(ds[i])]
  }

  /** `handleDeviceToggle`: only the preview device list changes. */
  function HandleDeviceToggle(s: Store, id: string): (r: Store)
    ensures r.imageUrl == s.imageUrl && r.watermark == s.watermark
    ensures r.preview.(devices := s.preview.devices) == s.preview
    ensures r.preview.devices == ToggleInList(s.preview.devices, id)
  {
    s.(preview := s.preview.(devices := ToggleInList(s.preview.devices, id)))
  }

  /** The watermark views depend on the watermark settings alone: toggling a
      device changes neither the text nor the style. */
  lemma ViewsIgnoreDeviceToggle(s: Store, id: string)
    ensures WatermarkText(HandleDeviceToggle(s, id)) == WatermarkText(s)
    ensures WatermarkPositionStyle(HandleDeviceToggle(s, id)) == WatermarkPositionStyle(s)
  {
  }

  /** Toggling keeps every flag defined, so the store's invariant holds forever. */
  lemma ToggleKeepsFlagsDefined(ds: seq<Device>, id: string)
    requires FlagsDefined(ds)
    ensures FlagsDefined(ToggleInList(ds, id))
  {
  }

  /** Toggling the same id twice restores the device list (flags defined), and
      restores the selected view in every case. */
  lemma ToggleTwice(ds: seq<Device>, id: string)
    ensures FlagsDefined(ds) ==> ToggleInList(ToggleInList(ds, id), id) == ds
    ensures SelectedDevices(ToggleInList(ToggleInList(ds, id), id)) == SelectedDevices(ds)
  {
    var once := ToggleInList(ds, id);
    var twice := ToggleInList(once, id);
    SameIdsSameIndex(ds, once, id);
    match FirstIndexOf(ds, id)
    case None =>
    case Some(i) =>
      assert twice == ds[i := twice[i]];
      assert FirstIndexOf(once, id) == Some(i);
      assert IsSelected(once[i]) == !IsSelected(ds[i]);
      assert IsSelected(twice[i]) == !IsSelected(once[i]);
      if FlagsDefined(ds) {
        assert ds[i].selected.Some?;
        assert twice[i].selected.Some?;
        assert twice[i].selected.value == IsSelected(twice[i]);
        assert ds[i].selected.value == IsSelected(ds[i]);
        assert twice[i].selected == ds[i].selected;
        assert twice[i] == ds[i];
      }
      assert IsSelected(twice[i]) == IsSelected(ds[i]);
      FilterIgnoresUnselectedFlagForm(ds, i, twice[i]);
  }

  lemma {:induction false} SameIdsSameIndex(a: seq<Device>, b: seq<Device>, id: string)
    requires |a| == |b|
    requires forall j :: 0 <= j < |a| ==> a[j].id == b[j].id
    ensures FirstIndexOf(a, id) == FirstIndexOf(b, id)
  {
    if a != [] {
      SameIdsSameIndex(a[1..], b[1..], id);
    }
  }

  /** Replacing a device by one that agrees on everything but the form of an
      unselected flag (undefined versus false) leaves the filtered view unchanged. */
  lemma {:induction false} FilterIgnoresUnselectedFlagForm(ds: seq<Device>, i: nat, d: Device)
    requires i < |ds|
    requires d.(selected := ds[i].selected) == ds[i]
    requires IsSelected(d) == IsSelected(ds[i])
    ensures SelectedDevices(ds[i := d]) == SelectedDevices(ds)
    decreases |ds|
  {
    if i > 0 {
      assert ds[i := d][1..] == ds[1..][i - 1 := d];
      FilterIgnoresUnselectedFlagForm(ds[1..], i - 1, d);
    } else {
      assert ds[i := d][1..] == ds[1..];
      if IsSelected(d) {
        assert d == ds[0];
      }
    }
  }

  /** A toggle changes the number of selected devices by exactly one when the
      id is present, and not at all otherwise. */
  lemma ToggleCount(ds: seq<Device>, id: string)
    ensures FirstIndexOf(ds, id).None? ==> CountSelected(ToggleInList(ds, id)) == CountSelected(ds)
    ensures FirstIndexOf(ds, id).Some? ==>
      var i := FirstIndexOf(ds, id).value;
      CountSelected(ToggleInList(ds, id)) == if IsSelected(ds[i]) then CountSelected(ds) - 1 else CountSelected(ds) + 1
  {
    match FirstIndexOf(ds, id)
    case None =>
    case Some(i) =>
      CountAfterUpdate(ds, i, Flip(ds[i]));
  }

  lemma {:induction false} CountAfterUpdate(ds: seq<Device>, i: nat, d: Device)
    requires i < |ds|
    ensures CountSelected(ds[i := d]) + (if IsSelected(ds[i]) then 1 else 0)
         == CountSelected(ds) + (if IsSelected(d) then 1 else 0)
    decreases |ds|
  {
    if i > 0 {
      assert ds[i := d][1..] == ds[1..][i - 1 := d];
      CountAfterUpdate(ds[1..], i - 1, d);
    } else {
      assert ds[i := d][1..] == ds[1..];
    }
  }
}
