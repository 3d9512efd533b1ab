/**
  Export decisions of the capture pipeline (src/utils/captureUtils.ts): how
  caller options are merged over the defaults, which element and background
  a wallpaper export uses, what the download is named, and how a
  rasterisation failure reaches the caller.

  The rasteriser (`html2canvas`) is a parameter `render` from a request to a
  canvas or an error; the canvas is represented by its PNG data URL. The
  clock read that `dayjs()` performs becomes an explicit DateTime argument.
 */
module Capture {
  import opened Opt
  import Strings
  import Seqs

  /** A DOM element, by identity. */
  datatype Element = Element(handle: nat)

  /** `backgroundColor`: `null` (no background) or a CSS colour string. */
  datatype BackgroundColor = NoBackground | Css(color: string)

  /** CaptureOptions: every field may be left out by the caller. */
  datatype CaptureOptions = CaptureOptions(
    backgroundColor: Option<BackgroundColor>,
    scale: Option<int>,
    useCORS: Option<bool>)
  {
    predicate Complete() {
      backgroundColor.Some? && scale.Some? && useCORS.Some?
    }
  }

  const NoOptions := CaptureOptions(None, None, None)

  const DefaultOptions := CaptureOptions(Some(NoBackground), Some(2), Some(true))

  /** `{...base, ...over}`: each field `over` provides replaces the one in `base`. */
  function Spread(base: CaptureOptions, over: CaptureOptions): CaptureOptions {
    CaptureOptions(
      if over.backgroundColor.Some? then over.backgroundColor else base.backgroundColor,
      if over.scale.Some? then over.scale else base.scale,
      if over.useCORS.Some? then over.useCORS else base.useCORS)
  }

  /** The options handed to the rasteriser: the caller's fields where given,
      otherwise no background, scale 2 and CORS loading on. */
  function WithDefaults(options: CaptureOptions): (r: CaptureOptions)
    ensures r.Complete()
    ensures r.backgroundColor == Some(options.backgroundColor.GetOr(NoBackground))
    ensures r.scale == Some(options.scale.GetOr(2))
    ensures r.useCORS == Some(options.useCORS.GetOr(true))
  {
    Spread(DefaultOptions, options)
  }

  /** Spreading is associative, and the empty options object is neutral on both sides. */
  lemma SpreadLaws(a: CaptureOptions, b: CaptureOptions, c: CaptureOptions)
    ensures Spread(Spread(a, b), c) == Spread(a, Spread(b, c))
    ensures Spread(a, NoOptions) == a && Spread(NoOptions, a) == a
  {
  }

  /** Defaulting is idempotent, leaves complete options alone, and turns the
      empty options object into exactly the defaults. */
  lemma WithDefaultsLaws(options: CaptureOptions)
    ensures WithDefaults(WithDefaults(options)) == WithDefaults(options)
    ensures options.Complete() ==> WithDefaults(options) == options
    ensures WithDefaults(NoOptions) == DefaultOptions
  {
  }

  /** What `html2canvas` is called with. */
  datatype RenderRequest = RenderRequest(element: Element, options: CaptureOptions)

  /** The rendered canvas, as `canvas.toDataURL('image/png')` would encode it. */
  datatype Canvas = Canvas(pngDataUrl: string)

  /** The synthetic link whose click starts the download. */
  datatype Download = Download(href: string, filename: string)

  /** `captureAndDownload`: render with the defaulted options, then download the
      PNG under exactly the given name; a rendering failure is passed on, not
      swallowed, and nothing is downloaded. */
  function CaptureAndDownload(element: Element, filename: string, options: CaptureOptions,
                              render: RenderRequest -> Result<Canvas, string>): (r: Result<Download, string>)
    ensures var out := render(RenderRequest(element, WithDefaults(options)));
            && (r.Success? <==> out.Success?)
            && (r.Success? ==> r.value.filename == filename && r.value.href == out.value.pngDataUrl)
            && (r.Failure? ==> r.error == out.error)
  {
    match render(RenderRequest(element, WithDefaults(options)))
    case Success(canvas) => Success(Download(canvas.pngDataUrl, filename))
    case Failure(e) => Failure(e)
  }

  /** `captureElement`: render with the defaulted options and return the canvas. */
  function CaptureElement(element: Element, options: CaptureOptions,
                          render: RenderRequest -> Result<Canvas, string>): (r: Result<Canvas, string>)
    ensures r == render(RenderRequest(element, CaptureOptions(
                   Some(options.backgroundColor.GetOr(NoBackground)),
                   Some(options.scale.GetOr(2)),
                   Some(options.useCORS.GetOr(true)))))
  {
    render(RenderRequest(element, WithDefaults(options)))
  }

  /** The two entry points default and override options in the same way: for any
      rasteriser, downloading succeeds exactly when capturing does, with the
      same canvas, and fails with the same error. */
  lemma CaptureEntryPointsAgree(element: Element, filename: string, options: CaptureOptions,
                                render: RenderRequest -> Result<Canvas, string>)
    ensures var c := CaptureElement(element, options, render);
            CaptureAndDownload(element, filename, options, render)
            == match c
               case Success(canvas) => Success(Download(canvas.pngDataUrl, filename))
               case Failure(e) => Failure(e)
  {
  }

  // ---------------------------------------------------------------------
  // Wallpaper export
  // ---------------------------------------------------------------------

  datatype DownloadOption = WithBackground | WithoutBackground

  /** The element to rasterise: the whole preview area with its background, or
      else the first of `.wallpaper-content`, `.preview-canvas` and the preview
      area itself that exists. The two selector matches are inputs. */
  function WallpaperTarget(previewArea: Element, mode: DownloadOption,
                           wallpaperContent: Option<Element>, previewCanvas: Option<Element>): (t: Element)
    ensures mode == WithBackground ==> t == previewArea
    ensures mode == WithoutBackground && wallpaperContent.Some? ==> t == wallpaperContent.value
    ensures mode == WithoutBackground && wallpaperContent.None? && previewCanvas.Some? ==> t == previewCanvas.value
    ensures mode == WithoutBackground && wallpaperContent.None? && previewCanvas.None? ==> t == previewArea
  {
    if mode == WithBackground then previewArea
    else wallpaperContent.GetOr(previewCanvas.GetOr(previewArea))
  }

  /** The options of a wallpaper export: no background when the background is
      included in the element, transparent otherwise; scale 2 and CORS always. */
  function WallpaperOptions(mode: DownloadOption): (o: CaptureOptions)
    ensures o.Complete()
    ensures o.backgroundColor == Some(if mode == WithBackground then NoBackground else Css("transparent"))
    ensures o.scale == Some(2) && o.useCORS == Some(true)
  {
    CaptureOptions(Some(if mode == WithBackground then NoBackground else Css("transparent")), Some(2), Some(true))
  }

  /** `captureWallpaper`: renders the chosen element with the mode's options,
      which defaulting leaves unchanged, and downloads the result under the
      given name; a rendering failure is passed on. */
  function CaptureWallpaper(previewArea: Element, mode: DownloadOption, filename: string,
                            wallpaperContent: Option<Element>, previewCanvas: Option<Element>,
                            render: RenderRequest -> Result<Canvas, string>): (r: Result<Download, string>)
    ensures var target := WallpaperTarget(previewArea, mode, wallpaperContent, previewCanvas);
            var out := render(RenderRequest(target, WallpaperOptions(mode)));
            && (r.Success? <==> out.Success?)
            && (r.Success? ==> r.value == Download(out.value.pngDataUrl, filename))
            && (r.Failure? ==> r.error == out.error)
  {
    WithDefaultsLaws(WallpaperOptions(mode));
    CaptureAndDownload(WallpaperTarget(previewArea, mode, wallpaperContent, previewCanvas),
                       filename, WallpaperOptions(mode), render)
  }

  // ---------------------------------------------------------------------
  // Timestamped file names
  // ---------------------------------------------------------------------

  /** A local date and time as the clock reports it (calendar month 1-12). */
  datatype DateTime = DateTime(year: nat, month: nat, day: nat, hour: nat, minute: nat, second: nat) {
    predicate Valid() {
      1 <= month <= 12 && 1 <= day <= 31 && hour < 24 && minute < 60 && second < 60
    }
  }

  /** `YYYYMMDD`: the year padded to four digits, month and day to two. */
  function FormatDate(t: DateTime): string {
    Strings.ZeroPad(t.year, 4) + Strings.ZeroPad(t.month, 2) + Strings.ZeroPad(t.day, 2)
  }

  /** `HHmmss`: hour, minute and second padded to two digits each. */
  function FormatTime(t: DateTime): string {
    Strings.ZeroPad(t.hour, 2) + Strings.ZeroPad(t.minute, 2) + Strings.ZeroPad(t.second, 2)
  }

  /** The `YYYYMMDD-HHmmss` rendering. */
  function FormatStamp(t: DateTime): string {
    FormatDate(t) + "-" + FormatTime(t)
  }

  /** `generateTimestampFilename(prefix, extension)` at time `now`, with the
      defaults 'capture' and 'png' for omitted arguments. */
  function GenerateTimestampFilename(prefix: Option<string>, extension: Option<string>, now: DateTime): (name: string)
    ensures var head, tail := prefix.GetOr("capture") + "-", "." + extension.GetOr("png");
            && |name| == |head| + |FormatStamp(now)| + |tail|
            && name[..|head|] == head
            && name[|head|..|name| - |tail|] == FormatStamp(now)
            && name[|name| - |tail|..] == tail
  {
    var head, stamp, tail := prefix.GetOr("capture") + "-", FormatStamp(now), "." + extension.GetOr("png");
    var name := head + stamp + tail;
    assert name[..|head|] == head;
    assert name[|head|..|name| - |tail|] == stamp;
    assert name[|name| - |tail|..] == tail;
    name
  }

  /** Three numeric fields, all of which must read. */
  function Fields3(a: string, b: string, c: string): Option<(nat, nat, nat)> {
    match (Strings.ParseDigits(a), Strings.ParseDigits(b), Strings.ParseDigits(c))
    case (Some(x), Some(y), Some(z)) => Some((x, y, z))
    case _ => None
  }

  /** Reads `YYYYMMDD` back; the year takes every digit before the last four. */
  function ParseDate(s: string): Option<(nat, nat, nat)> {
    var n := |s|;
    if n < 8 then None else Fields3(s[..n - 4], s[n - 4..n - 2], s[n - 2..])
  }

  /** Reads `HHmmss` back. */
  function ParseTime(s: string): Option<(nat, nat, nat)> {
    if |s| != 6 then None else Fields3(s[..2], s[2..4], s[4..])
  }

  /** Reads a `YYYYMMDD-HHmmss` stamp back. */
  function ParseStamp(s: string): Option<DateTime> {
    var n := |s|;
    if n < 15 || s[n - 7] != '-' then None
    else match (ParseDate(s[..n - 7]), ParseTime(s[n - 6..]))
      case (Some((y, mo, d)), Some((h, mi, se))) => Some(DateTime(y, mo, d, h, mi, se))
      case _ => None
  }

  /** Reads the time back out of a file name with a known prefix and extension. */
  function ParseTimestampFilename(name: string, prefix: string, extension: string): Option<DateTime> {
    var head := prefix + "-";
    var tail := "." + extension;
    if |name| >= |head| + |tail| && name[..|head|] == head && name[|name| - |tail|..] == tail
    then ParseStamp(name[|head|..|name| - |tail|])
    else None
  }

  /** A zero-padded number reads back as itself. */
  lemma DigitsOfZeroPad(n: nat, width: nat)
    ensures Strings.ParseDigits(Strings.ZeroPad(n, width)) == Some(n)
  {
    Strings.ParseNatOfZeroPad(n, width);
  }

  lemma TwoDigits(n: nat)
    requires n < 100
    ensures |Strings.ZeroPad(n, 2)| == 2
    ensures Strings.ParseNat(Strings.ZeroPad(n, 2)) == n
  {
    Strings.NatToStringLength(n, 2);
    Strings.ParseNatOfZeroPad(n, 2);
  }

  /** Slicing a date assembled from its fields gives the fields back. */
  lemma ParseDateOfParts(y: string, mo: string, d: string)
    requires |y| >= 4 && |mo| == 2 && |d| == 2
    ensures ParseDate(y + mo + d) == Fields3(y, mo, d)
  {
    Seqs.Split3(y, mo, d);
  }

  /** Slicing a time assembled from its fields gives the fields back. */
  lemma ParseTimeOfParts(h: string, mi: string, se: string)
    requires |h| == 2 && |mi| == 2 && |se| == 2
    ensures ParseTime(h + mi + se) == Fields3(h, mi, se)
  {
    Seqs.Split3(h, mi, se);
  }

  /** Slicing a stamp assembled from its fields gives the fields back. */
  lemma ParseStampOfParts(date: string, time: string)
    requires |date| >= 8 && |time| == 6
    ensures ParseStamp(date + "-" + time) == match (ParseDate(date), ParseTime(time))
      case (Some((y, mo, d)), Some((h, mi, se))) => Some(DateTime(y, mo, d, h, mi, se))
      case _ => None
  {
    var s := date + "-" + time;
    Seqs.Split3(date, "-", time);
    assert s[|date|] == s[|date|..|date| + 1][0];
  }

  /** The date half of a stamp reads back as the date. */
  lemma ParseDateOfFormat(t: DateTime)
    requires t.Valid()
    ensures |FormatDate(t)| >= 8
    ensures ParseDate(FormatDate(t)) == Some((t.year, t.month, t.day))
  {
    TwoDigits(t.month);
    TwoDigits(t.day);
    DigitsOfZeroPad(t.year, 4);
    DigitsOfZeroPad(t.month, 2);
    DigitsOfZeroPad(t.day, 2);
    ParseDateOfParts(Strings.ZeroPad(t.year, 4), Strings.ZeroPad(t.month, 2), Strings.ZeroPad(t.day, 2));
  }

  /** The time half of a stamp reads back as the time of day. */
  lemma ParseTimeOfFormat(t: DateTime)
    requires t.Valid()
    ensures |FormatTime(t)| == 6
    ensures ParseTime(FormatTime(t)) == Some((t.hour, t.minute, t.second))
  {
    TwoDigits(t.hour);
    TwoDigits(t.minute);
    TwoDigits(t.second);
    DigitsOfZeroPad(t.hour, 2);
    DigitsOfZeroPad(t.minute, 2);
    DigitsOfZeroPad(t.second, 2);
    ParseTimeOfParts(Strings.ZeroPad(t.hour, 2), Strings.ZeroPad(t.minute, 2), Strings.ZeroPad(t.second, 2));
  }

  lemma ParseStampOfFormatStamp(t: DateTime)
    requires t.Valid()
    ensures ParseStamp(FormatStamp(t)) == Some(t)
  {
    ParseDateOfFormat(t);
    ParseTimeOfFormat(t);
    ParseStampOfParts(FormatDate(t), FormatTime(t));
  }

  /** The generated name carries the whole time: it can be read back from the
      name given the same prefix and extension. */
  lemma TimestampFilenameRoundTrip(prefix: string, extension: string, now: DateTime)
    requires now.Valid()
    ensures ParseTimestampFilename(GenerateTimestampFilename(Some(prefix), Some(extension), now), prefix, extension) == Some(now)
  {
    ParseStampOfFormatStamp(now);
  }

  /** For a four-digit year the name is the prefix and extension plus 17
      characters: two separators, a dot and the 15-character stamp. */
  lemma TimestampFilenameLength(prefix: Option<string>, extension: Option<string>, now: DateTime)
    requires now.Valid() && now.year < 10000
    ensures |GenerateTimestampFilename(prefix, extension, now)|
         == |prefix.GetOr("capture")| + |extension.GetOr("png")| + 17
  {
    Strings.NatToStringLength(now.year, 4);
    Strings.ParseNatOfZeroPad(now.year, 4);
    TwoDigits(now.month);
    TwoDigits(now.day);
    TwoDigits(now.hour);
    TwoDigits(now.minute);
    TwoDigits(now.second);
  }

  /** Omitted arguments behave as 'capture' and 'png'. */
  lemma TimestampFilenameDefaults(now: DateTime)
    ensures GenerateTimestampFilename(None, None, now) == GenerateTimestampFilename(Some("capture"), Some("png"), now)
  {
  }
}
