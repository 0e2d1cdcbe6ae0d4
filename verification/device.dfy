/**
 * The device service: classifying a request's device from its user agent, the per-device
 * configuration table, image size bands, trimming list responses to the device's batch size, and
 * the choice of image format.
 */
module Device {
  import opened Wrappers
  import opened Text

  datatype DeviceType = Mobile | Tablet | Desktop

  datatype ImageSize = Small | Medium | Large

  /** One row of the configuration table; `maxImageSize` is in pixels, `imageQuality` in percent. */
  datatype DeviceConfig = DeviceConfig(
    kind: DeviceType,
    maxImageSize: nat,
    imageQuality: nat,
    batchSize: nat,
    supportedImageFormats: seq<string>)

  /** The configuration table. */
  function Config(d: DeviceType): DeviceConfig {
    match d
    case Mobile => DeviceConfig(Mobile, 800, 70, 10, ["webp", "jpeg"])
    case Tablet => DeviceConfig(Tablet, 1200, 80, 15, ["webp", "jpeg", "png"])
    case Desktop => DeviceConfig(Desktop, 1600, 90, 20, ["webp", "jpeg", "png", "gif"])
  }

  /** `getBatchSize`: the number of list items a device is sent. */
  function GetBatchSize(d: DeviceType): nat {
    Config(d).batchSize
  }

  /**
   * The table grows from mobile through tablet to desktop in every dimension, every row describes
   * its own device, and every device takes WebP and JPEG.
   */
  lemma ConfigTable(d: DeviceType)
    ensures Config(d).kind == d
    ensures GetBatchSize(Mobile) == 10 && GetBatchSize(Tablet) == 15 && GetBatchSize(Desktop) == 20
    ensures Config(Mobile).maxImageSize < Config(Tablet).maxImageSize < Config(Desktop).maxImageSize
    ensures Config(Mobile).imageQuality < Config(Tablet).imageQuality < Config(Desktop).imageQuality
    ensures "webp" in Config(d).supportedImageFormats && "jpeg" in Config(d).supportedImageFormats
    ensures Config(d).maxImageSize > 0 && Config(d).maxImageSize % 2 == 0
  {
  }

  /** The keywords that mark a mobile device. */
  const MobileKeywords: seq<string> := ["mobile", "android", "iphone", "ipad", "ipod", "windows phone"]

  /** The keywords that, among mobile devices, mark a tablet. */
  const TabletKeywords: seq<string> := ["ipad", "tablet"]

  /** Some keyword of `ks` occurs in `s`. */
  ghost predicate MentionsAny(s: string, ks: seq<string>) {
    exists i :: 0 <= i < |ks| && Contains(s, ks[i])
  }

  /** The search for any keyword of `ks` in `s` that the classifier runs. */
  function SearchAny(s: string, ks: seq<string>): (b: bool)
    ensures b <==> MentionsAny(s, ks)
  {
    if ks == [] then false
    else
      Search(s, ks[0]) || (
      var rest := SearchAny(s, ks[1..]);
      assert rest <==> exists i :: 1 <= i < |ks| && Contains(s, ks[i]) by {
        assert forall i :: 1 <= i < |ks| ==> ks[i] == ks[1..][i - 1];
      }
      rest)
  }

  /** The user agent as the classifier reads it: lower-cased, or empty when the header is missing. */
  function AgentText(userAgent: Option<string>): string {
    if userAgent.Some? then Lower(userAgent.value) else ""
  }

  /**
   * `detectDevice`: a tablet when the agent names a mobile keyword and also "ipad" or "tablet";
   * a mobile device when it names a mobile keyword only; a desktop otherwise.
   */
  function DetectDevice(userAgent: Option<string>): (d: DeviceType)
    ensures var u := AgentText(userAgent);
      && (d == Tablet <==> MentionsAny(u, MobileKeywords) && MentionsAny(u, TabletKeywords))
      && (d == Mobile <==> MentionsAny(u, MobileKeywords) && !MentionsAny(u, TabletKeywords))
      && (d == Desktop <==> !MentionsAny(u, MobileKeywords))
  {
    var u := AgentText(userAgent);
    if SearchAny(u, MobileKeywords) then
      if SearchAny(u, TabletKeywords) then Tablet else Mobile
    else Desktop
  }

  /** An iPad is always a tablet: "ipad" is both a mobile and a tablet keyword. */
  lemma IpadIsTablet(userAgent: Option<string>)
    requires Contains(AgentText(userAgent), "ipad")
    ensures DetectDevice(userAgent) == Tablet
  {
    assert MobileKeywords[3] == "ipad" && TabletKeywords[0] == "ipad";
  }

  /** "tablet" alone does not make a tablet: without a mobile keyword the agent is a desktop. */
  lemma TabletWordAloneIsDesktop(userAgent: Option<string>)
    requires Contains(AgentText(userAgent), "tablet")
    requires forall i :: 0 <= i < |MobileKeywords| ==> !Contains(AgentText(userAgent), MobileKeywords[i])
    ensures DetectDevice(userAgent) == Desktop
  {
  }

  /** A request without a user agent is served as a desktop. */
  lemma MissingAgentIsDesktop()
    ensures DetectDevice(None) == Desktop
    ensures DetectDevice(Some("")) == Desktop
  {
    forall i | 0 <= i < |MobileKeywords| ensures !Contains("", MobileKeywords[i]) {
      assert |MobileKeywords[i]| > 0;
    }
  }

  /** The classification ignores letter case. */
  lemma DetectIgnoresCase(s: string)
    ensures DetectDevice(Some(Upper(s))) == DetectDevice(Some(s))
  {
    LowerOfUpper(s);
  }

  /** `getDeviceConfig`: the configuration row of the detected device. */
  function GetDeviceConfig(userAgent: Option<string>): (c: DeviceConfig)
    ensures c.kind == DetectDevice(userAgent)
  {
    Config(DetectDevice(userAgent))
  }

  /** The order of the size bands. */
  function SizeRank(s: ImageSize): nat {
    match s
    case Small => 0
    case Medium => 1
    case Large => 2
  }

  /**
   * `getImageSize`: small up to half the device's maximum dimension, medium up to the maximum,
   * large beyond it.
   */
  function GetImageSize(d: DeviceType, originalSize: int): (s: ImageSize)
    ensures s == Small <==> 2 * originalSize <= Config(d).maxImageSize
    ensures s == Medium <==> Config(d).maxImageSize < 2 * originalSize && originalSize <= Config(d).maxImageSize
    ensures s == Large <==> originalSize > Config(d).maxImageSize
  {
    var max := Config(d).maxImageSize;
    if originalSize <= max / 2 then Small
    else if originalSize <= max then Medium
    else Large
  }

  /** A larger image never falls in a smaller band. */
  lemma ImageSizeMonotone(d: DeviceType, a: int, b: int)
    requires a <= b
    ensures SizeRank(GetImageSize(d, a)) <= SizeRank(GetImageSize(d, b))
  {
  }

  /** The same image counts as no larger on a tablet than on a phone, and no larger on a desktop than on a tablet. */
  lemma BiggerScreensAllowMore(size: int)
    ensures SizeRank(GetImageSize(Tablet, size)) <= SizeRank(GetImageSize(Mobile, size))
    ensures SizeRank(GetImageSize(Desktop, size)) <= SizeRank(GetImageSize(Tablet, size))
  {
  }

  /**
   * A response body as far as the adjustment looks at it: a list, or a value that is neither a
   * list nor an object.
   */
  datatype Payload<T> = Items(items: seq<T>) | Plain(value: T)

  function Min(a: int, b: int): int {
    if a <= b then a else b
  }

  /**
   * `adjustResponseForDevice`: a list keeps its first `batchSize` items, in order; any other
   * value is returned unchanged.
   */
  function AdjustResponse<T>(data: Payload<T>, d: DeviceType): (r: Payload<T>)
    ensures data.Plain? ==> r == data
    ensures data.Items? ==> (
      && r.Items?
      && |r.items| == Min(|data.items|, GetBatchSize(d))
      && forall i :: 0 <= i < |r.items| ==> r.items[i] == data.items[i])
  {
    match data
    case Items(xs) => Items(if |xs| <= GetBatchSize(d) then xs else xs[..GetBatchSize(d)])
    case Plain(_) => data
  }

  /** Adjusting twice for the same device is adjusting once, and a short list passes untouched. */
  lemma AdjustIdempotent<T>(data: Payload<T>, d: DeviceType)
    ensures AdjustResponse(AdjustResponse(data, d), d) == AdjustResponse(data, d)
    ensures data.Items? && |data.items| <= GetBatchSize(d) ==> AdjustResponse(data, d) == data
  {
  }

  /** A response trimmed for a larger device, then for a smaller one, is the response trimmed for the smaller one. */
  lemma AdjustNarrows<T>(data: Payload<T>, big: DeviceType, small: DeviceType)
    requires GetBatchSize(small) <= GetBatchSize(big)
    ensures AdjustResponse(AdjustResponse(data, big), small) == AdjustResponse(data, small)
  {
    if data.Items? {
      var r := AdjustResponse(AdjustResponse(data, big), small);
      assert r.items == AdjustResponse(data, small).items;
    }
  }

  /** The Accept header as the format choice reads it, empty when missing. */
  function AcceptText(accept: Option<string>): string {
    if accept.Some? then accept.value else ""
  }

  /**
   * `getOptimalImageFormat`: WebP when the Accept header names "image/webp" and the device takes
   * WebP, JPEG otherwise. Every device takes WebP, so only the header decides.
   */
  function GetOptimalImageFormat(userAgent: Option<string>, accept: Option<string>): (f: string)
    ensures f == "webp" <==> Contains(AcceptText(accept), "image/webp")
    ensures f == "webp" || f == "jpeg"
  {
    ConfigTable(DetectDevice(userAgent));
    if Search(AcceptText(accept), "image/webp") && "webp" in GetDeviceConfig(userAgent).supportedImageFormats
    then "webp"
    else "jpeg"
  }

  /** The image extensions the URL check recognises. */
  const ImageExtensions: seq<string> := [".jpg", ".jpeg", ".png", ".webp", ".gif"]

  /** Some suffix of `ks` ends `s`. */
  function EndsWithAny(s: string, ks: seq<string>): (b: bool)
    ensures b <==> exists i :: 0 <= i < |ks| && EndsWith(s, ks[i])
  {
    if ks == [] then false
    else
      EndsWith(s, ks[0]) || (
      var rest := EndsWithAny(s, ks[1..]);
      assert rest <==> exists i :: 1 <= i < |ks| && EndsWith(s, ks[i]) by {
        assert forall i :: 1 <= i < |ks| ==> ks[i] == ks[1..][i - 1];
      }
      rest)
  }

  /** `isImageUrl`: the URL ends in one of the image extensions, in any letter case. */
  function IsImageUrl(url: string): (b: bool)
    ensures b <==> exists i :: 0 <= i < |ImageExtensions| && EndsWith(Lower(url), ImageExtensions[i])
  {
    EndsWithAny(Lower(url), ImageExtensions)
  }

  /** Letter case does not matter to the URL check. */
  lemma ImageUrlIgnoresCase(url: string)
    ensures IsImageUrl(Upper(url)) == IsImageUrl(url)
  {
    LowerOfUpper(url);
  }

  /** Only the end of the URL matters: whatever precedes an image URL, it stays an image URL. */
  lemma ImageUrlSuffixClosed(prefix: string, url: string)
    requires IsImageUrl(url)
    ensures IsImageUrl(prefix + url)
  {
    LowerAppend(prefix, url);
    var i :| 0 <= i < |ImageExtensions| && EndsWith(Lower(url), ImageExtensions[i]);
    var e := ImageExtensions[i];
    var u := Lower(prefix + url);
    assert u[|u| - |e|..] == Lower(url)[|Lower(url)| - |e|..];
  }

  /** Query strings defeat the check: only the very end of the string is compared. */
  lemma ImageUrlNeedsExactEnding()
    ensures IsImageUrl("a.PNG")
    ensures !IsImageUrl("a.png?w=1")
  {
    var u := Lower("a.PNG");
    assert u[0] == 'a' && u[1] == '.' && u[2] == 'p' && u[3] == 'n' && u[4] == 'g';
    assert u[1..] == ImageExtensions[2];
    var v := Lower("a.png?w=1");
    assert v[8] == '1';
    forall i | 0 <= i < |ImageExtensions| ensures !EndsWith(v, ImageExtensions[i]) {
      var e := ImageExtensions[i];
      assert e[|e| - 1] != '1';
      assert |e| <= |v| ==> v[|v| - |e|..][|e| - 1] == '1';
    }
  }
}
