/** `getDownloadUrl`, the download file name, and the whole `downloadApp` flow. */
module Download {
  import opened Options
  import opened Text
  import opened DownloadStats
  import opened StatsStore

  const AndroidUrl := "./downloads/StrayConnected.apk"
  const IOSUrl := "./downloads/StrayConnected.ipa"

  /** `getDownloadUrl`: the package of a known platform; `null` for every other string. */
  function DownloadUrl(platform: string): (r: Option<string>)
    ensures r.Some? <==> exists p: Platform :: Key(p) == platform
    ensures r.Some? ==> StartsWith(r.value, "./downloads/StrayConnected.")
    ensures platform == "android" ==> r == Some(AndroidUrl)
    ensures platform == "ios" ==> r == Some(IOSUrl)
  {
    if platform == "android" then
      assert Key(Android) == platform;
      Some(AndroidUrl)
    else if platform == "ios" then
      assert Key(IOS) == platform;
      Some(IOSUrl)
    else
      None
  }

  /** The package extension the link's `download` attribute uses: `apk` for android and `ipa` for anything else. */
  function Extension(platform: string): string {
    if platform == "android" then "apk" else "ipa"
  }

  const FilePrefix := "StrayConnected_"

  /** `StrayConnected_<platform>.<apk|ipa>`, the suggested name of the downloaded file. */
  function FileName(platform: string): (r: string)
    ensures StartsWith(r, FilePrefix) && |r| == |FilePrefix| + |platform| + 4
    ensures r[|FilePrefix|..|r| - 4] == platform
    ensures r[|r| - 4..] == (if platform == "android" then ".apk" else ".ipa")
  {
    FilePrefix + platform + "." + Extension(platform)
  }

  /** Recovers the platform from a suggested file name; inverse of `FileName`. */
  function ParseFileName(name: string): Option<string> {
    if !StartsWith(name, FilePrefix) || |name| < |FilePrefix| + 4 then None
    else
      var platform := name[|FilePrefix|..|name| - 4];
      var suffix := name[|name| - 4..];
      if suffix == ".apk" && platform == "android" then Some(platform)
      else if suffix == ".ipa" && platform != "android" then Some(platform)
      else None
  }

  lemma FileNameRoundTrip(platform: string)
    ensures ParseFileName(FileName(platform)) == Some(platform)
  {
  }

  /** Different platforms never get the same file name. */
  lemma FileNameInjective(p: string, q: string)
    requires FileName(p) == FileName(q)
    ensures p == q
  {
    FileNameRoundTrip(p);
    FileNameRoundTrip(q);
  }

  /** For both platforms the URL and the suggested file name carry the same package extension. */
  lemma UrlMatchesFileName(p: Platform)
    ensures DownloadUrl(Key(p)).Some?
    ensures EndsWith(DownloadUrl(Key(p)).value, "." + Extension(Key(p)))
    ensures EndsWith(FileName(Key(p)), "." + Extension(Key(p)))
  {
  }

  /** What the user ends up with after clicking a download button. */
  datatype Result =
    | Started(href: string, fileName: string)   // the link was clicked: "Download started!"
    | Unavailable                                // no URL: "Download link not available."
    | Aborted(fault: Fault)                      // an exception ended the handler before the link

  datatype Click = Click(store: Store, result: Result)

  /**
   * `downloadApp(platform)`: count the download and save, then (after the
   * preparation delay) click a link to the platform's package. `setItem` is
   * not guarded, so when storage refuses the write the exception ends the
   * handler and no download starts, although the counters have moved.
   */
  function DownloadApp(s: Store, p: Platform): (r: Click)
    ensures r.store == RecordDownload(s, p).store
    ensures r.result.Aborted? <==> !s.writable
    ensures r.result.Aborted? ==> r.result.fault == QuotaExceeded
    ensures s.writable ==> r.result == Started(DownloadUrl(Key(p)).value, FileName(Key(p)))
  {
    var recorded := RecordDownload(s, p);
    if recorded.Threw? then
      Click(recorded.store, Aborted(recorded.fault))
    else
      match DownloadUrl(Key(p))
      case Some(url) => Click(recorded.store, Started(url, FileName(Key(p))))
      case None => Click(recorded.store, Unavailable)
  }
}
