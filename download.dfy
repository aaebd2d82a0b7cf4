/**
 * The game download page in the browser (`DownloadManager`): the platform
 * guessed from the user agent, the FAQ accordion, and the guard that keeps a
 * second download from starting while one is in progress.  The page itself
 * is modelled as flags: whether the modal is open, which FAQ items are open.
 */
module Download {

  import opened Wrappers
  import opened Text

  datatype Platform = Windows | Mac | Android | IOS

  /** The key a platform goes by in the page's `data-platform` attributes. */
  function PlatformKey(p: Platform): (key: string)
    ensures p == Android || p == IOS <==> key == "android" || key == "ios"
  {
    match p
    case Windows => "windows"
    case Mac => "mac"
    case Android => "android"
    case IOS => "ios"
  }

  // ---------------------------------------------------------------- platform detection

  /**
   * `detectUserPlatform`'s decision, as written: "mac" is tested first, then
   * "android", then "iphone" or "ipad"; with no match the default is Windows.
   */
  function DetectPlatform(userAgent: string): (p: Platform)
    ensures var ua := LowerString(userAgent);
      && (p == Mac <==> Contains(ua, "mac"))
      && (p == Android <==> !Contains(ua, "mac") && Contains(ua, "android"))
      && (p == IOS <==> !Contains(ua, "mac") && !Contains(ua, "android") &&
                        (Contains(ua, "iphone") || Contains(ua, "ipad")))
  {
    var ua := LowerString(userAgent);
    if Contains(ua, "mac") then Mac
    else if Contains(ua, "android") then Android
    else if Contains(ua, "iphone") || Contains(ua, "ipad") then IOS
    else Windows
  }

  /** With none of the four markers in the user agent, the page recommends Windows. */
  lemma DefaultIsWindows(userAgent: string)
    requires var ua := LowerString(userAgent);
      !Contains(ua, "mac") && !Contains(ua, "android") && !Contains(ua, "iphone") && !Contains(ua, "ipad")
    ensures DetectPlatform(userAgent) == Windows
  {
  }

  /**
   * The user agent of Safari on an iPhone: it names the iPhone and says "like Mac OS X".
   * It is written in pieces so that the proofs below can see the two markers
   * as whole literals instead of characters deep inside one long one.
   */
  const IPhoneUserAgent: string := "Mozilla/5.0 (" + "iPhone" + "; CPU iPhone OS 17_5 like " + "Mac" + " OS X)"

  lemma IPhoneAgentMarkers()
    ensures OccursAt(LowerString(IPhoneUserAgent), "iphone", 13)
    ensures OccursAt(LowerString(IPhoneUserAgent), "mac", 45)
  {
    var ua := LowerString(IPhoneUserAgent);
    assert IPhoneUserAgent[13..19] == "iPhone";
    assert IPhoneUserAgent[45..48] == "Mac";
    assert ua[13..19] == LowerString("iPhone") == "iphone";
    assert ua[45..48] == LowerString("Mac") == "mac";
  }

  /** As written, an iPhone is recommended the Mac download: the iOS branch is never reached for it. */
  lemma IPhoneDetectedAsMac()
    ensures Contains(LowerString(IPhoneUserAgent), "iphone")
    ensures DetectPlatform(IPhoneUserAgent) == Mac
  {
    IPhoneAgentMarkers();
  }

  /** The evident intent: an iPhone or iPad is iOS whatever else its user agent mentions. */
  function DetectPlatformIntended(userAgent: string): (p: Platform)
    ensures var ua := LowerString(userAgent);
      && (p == IOS <==> Contains(ua, "iphone") || Contains(ua, "ipad"))
      && (!Contains(ua, "iphone") && !Contains(ua, "ipad") ==> p == DetectPlatform(userAgent))
  {
    var ua := LowerString(userAgent);
    if Contains(ua, "iphone") || Contains(ua, "ipad") then IOS
    else DetectPlatform(userAgent)
  }

  lemma IntendedRecognisesIPhone()
    ensures DetectPlatformIntended(IPhoneUserAgent) == IOS
  {
    IPhoneAgentMarkers();
  }

  /**
   * The key `detectUserPlatform` stores on the main button's `data-platform`:
   * it always has a download link and a file name, and it is chosen by the
   * markers in the order the page tests them, Windows when none is present.
   */
  function RecommendedPlatform(userAgent: string): (key: string)
    ensures key in DownloadLinks && key in FileNames
    ensures var ua := LowerString(userAgent);
      && (key == "mac" <==> Contains(ua, "mac"))
      && (key == "android" <==> !Contains(ua, "mac") && Contains(ua, "android"))
      && (key == "ios" <==> !Contains(ua, "mac") && !Contains(ua, "android") &&
                            (Contains(ua, "iphone") || Contains(ua, "ipad")))
      && (key == "windows" <==> !Contains(ua, "mac") && !Contains(ua, "android") &&
                                !Contains(ua, "iphone") && !Contains(ua, "ipad"))
  {
    PlatformKey(DetectPlatform(userAgent))
  }

  /** As written, the main button of an iPhone offers the Mac download. */
  lemma IPhoneButtonOffersMac()
    ensures RecommendedPlatform(IPhoneUserAgent) == "mac"
  {
    IPhoneDetectedAsMac();
  }

  // ---------------------------------------------------------------- FAQ accordion

  /** The open flags of the FAQ items after `toggleFAQ(x)`. */
  function Toggled(open: seq<bool>, x: nat): (r: seq<bool>)
    requires x < |open|
    ensures |r| == |open|
    ensures r[x] == !open[x]
    ensures forall j :: 0 <= j < |open| && j != x ==> !r[j]
  {
    seq(|open|, j requires 0 <= j < |open| => j == x && !open[x])
  }

  function CountOpen(open: seq<bool>): (n: nat)
  {
    if open == [] then 0 else (if open[0] then 1 else 0) + CountOpen(open[1..])
  }

  /** A sequence with no open item but possibly the one at `x` has at most that one open. */
  lemma {:induction false} CountOpenAtMostOne(s: seq<bool>, x: int)
    requires forall j :: 0 <= j < |s| && j != x ==> !s[j]
    ensures CountOpen(s) == if 0 <= x < |s| && s[x] then 1 else 0
  {
    if s != [] {
      CountOpenAtMostOne(s[1..], x - 1);
      if 0 <= x - 1 < |s[1..]| {
        assert s[1..][x - 1] == s[x];
      }
    }
  }

  /** After a toggle at most one item is open: the clicked one, exactly when it was closed. */
  lemma AccordionAtMostOneOpen(open: seq<bool>, x: nat)
    requires x < |open|
    ensures CountOpen(Toggled(open, x)) <= 1
    ensures CountOpen(Toggled(open, x)) == 1 <==> !open[x]
  {
    CountOpenAtMostOne(Toggled(open, x), x);
  }

  /** `toggleFAQ(item)`: close every item, then open the clicked one unless it was open. */
  method ToggleFAQ(open: array<bool>, x: nat)
    requires x < open.Length
    modifies open
    ensures open[..] == Toggled(old(open[..]), x)
  {
    var wasOpen := open[x];
    var j := 0;
    while j < open.Length
      invariant 0 <= j <= open.Length
      invariant forall k :: 0 <= k < j ==> !open[k]
      invariant forall k :: j <= k < open.Length ==> open[k] == old(open[k])
    {
      open[j] := false;
      j := j + 1;
    }
    if !wasOpen {
      open[x] := true;
    }
  }

  // ---------------------------------------------------------------- downloads

  /** Where the direct download sends each platform. */
  const DownloadLinks: map<string, string> := map[
    "windows" := "https://example.com/ra-game-windows.exe",
    "mac" := "https://example.com/ra-game-mac.dmg",
    "android" := "https://play.google.com/store/apps/details?id=com.example.ra",
    "ios" := "https://apps.apple.com/app/ra-game/id123456789"]

  const FileNames: map<string, string> := map[
    "windows" := "RA-Game-Setup.exe",
    "mac" := "RA-Game.dmg",
    "android" := "RA Game (Google Play)",
    "ios" := "RA Game (App Store)"]

  function Lookup(m: map<string, string>, key: string): (r: Option<string>)
    ensures r.Some? <==> key in m
    ensures r.Some? ==> r.value == m[key]
  {
    if key in m then Some(m[key]) else None
  }

  /** The answer of the download-start request. */
  datatype StartReply =
    | Granted(downloadUrl: string, filename: string)  // `success` with a link
    | Refused                                          // a response without `success`
    | Unreachable                                      // the request threw

  /** What a click makes the browser do. */
  datatype Effect =
    | AlertBusy                                          // "a download is already in progress"
    | AlertNoLink                                        // "could not get the download link"
    | FileDownload(url: Option<string>, filename: Option<string>)
    | StoreRedirect(url: Option<string>)                 // a new tab; the modal closes after 3 s

  class DownloadManager {
    var isDownloading: bool
    var downloadProgress: int
    var modalOpen: bool

    constructor ()
      ensures !isDownloading && downloadProgress == 0 && !modalOpen
    {
      isDownloading := false;
      downloadProgress := 0;
      modalOpen := false;
    }

    /** `startDownload`: raise the flag, open the modal and fetch the file. */
    method StartDownload(url: Option<string>, filename: Option<string>) returns (e: Effect)
      modifies this
      ensures isDownloading && modalOpen && downloadProgress == old(downloadProgress)
      ensures e == FileDownload(url, filename)
    {
      isDownloading := true;
      modalOpen := true;
      e := FileDownload(url, filename);
    }

    /**
     * `startDirectDownload(platform)`: the mobile platforms go to their
     * store, leaving the flag as it was; any other platform downloads a file.
     */
    method StartDirectDownload(platform: string) returns (e: Effect)
      modifies this
      ensures modalOpen && downloadProgress == old(downloadProgress)
      ensures platform == "android" || platform == "ios" ==>
        e == StoreRedirect(Lookup(DownloadLinks, platform)) && isDownloading == old(isDownloading)
      ensures platform != "android" && platform != "ios" ==>
        e == FileDownload(Lookup(DownloadLinks, platform), Lookup(FileNames, platform)) && isDownloading
    {
      if platform == "android" || platform == "ios" {
        modalOpen := true;
        e := StoreRedirect(Lookup(DownloadLinks, platform));
      } else {
        e := StartDownload(Lookup(DownloadLinks, platform), Lookup(FileNames, platform));
      }
    }

    /**
     * `handlePlatformDownload(platform)` given the answer of its start
     * request: while a download runs it only alerts and changes nothing.
     */
    method HandlePlatformDownload(platform: string, reply: StartReply) returns (e: Effect)
      modifies this
      ensures old(isDownloading) ==>
        e == AlertBusy && isDownloading && modalOpen == old(modalOpen) &&
        downloadProgress == old(downloadProgress)
      ensures !old(isDownloading) && reply.Granted? ==>
        e == FileDownload(Some(reply.downloadUrl), Some(reply.filename)) && isDownloading && modalOpen
      ensures !old(isDownloading) && reply.Refused? ==>
        e == AlertNoLink && !isDownloading && modalOpen == old(modalOpen)
      ensures !old(isDownloading) && reply.Unreachable? ==>
        modalOpen && (isDownloading <==> e.FileDownload?) &&
        e == if platform == "android" || platform == "ios"
             then StoreRedirect(Lookup(DownloadLinks, platform))
             else FileDownload(Lookup(DownloadLinks, platform), Lookup(FileNames, platform))
      ensures downloadProgress == old(downloadProgress)
    {
      if isDownloading {
        return AlertBusy;
      }
      match reply
      case Granted(url, filename) =>
        e := StartDownload(Some(url), Some(filename));
      case Refused =>
        e := AlertNoLink;
      case Unreachable =>
        e := StartDirectDownload(platform);
    }

    /** `handleMainDownload`: the platform on the main button, Windows when it has none. */
    method HandleMainDownload(buttonPlatform: string, reply: StartReply) returns (e: Effect)
      modifies this
      ensures old(isDownloading) ==>
        e == AlertBusy && isDownloading && modalOpen == old(modalOpen) &&
        downloadProgress == old(downloadProgress)
      ensures !old(isDownloading) && reply.Granted? ==>
        e == FileDownload(Some(reply.downloadUrl), Some(reply.filename)) && isDownloading && modalOpen
      ensures !old(isDownloading) && reply.Refused? ==>
        e == AlertNoLink && !isDownloading && modalOpen == old(modalOpen)
      ensures !old(isDownloading) && reply.Unreachable? ==>
        var platform := if buttonPlatform == "" then "windows" else buttonPlatform;
        modalOpen && (isDownloading <==> e.FileDownload?) &&
        e == if platform == "android" || platform == "ios"
             then StoreRedirect(Lookup(DownloadLinks, platform))
             else FileDownload(Lookup(DownloadLinks, platform), Lookup(FileNames, platform))
      ensures downloadProgress == old(downloadProgress)
    {
      var platform := if buttonPlatform == "" then PlatformKey(Windows) else buttonPlatform;
      e := HandlePlatformDownload(platform, reply);
    }

    /** `closeDownloadModal`: close the modal and reset the flag and the progress. */
    method CloseDownloadModal()
      modifies this
      ensures !modalOpen && !isDownloading && downloadProgress == 0
    {
      modalOpen := false;
      isDownloading := false;
      downloadProgress := 0;
    }
  }
}
