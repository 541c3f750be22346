/** The per-platform download counters kept by the landing page. */
module DownloadStats {

  /** The two platforms a download can be started for. */
  datatype Platform = Android | IOS

  /** The string the page uses for a platform: the property name in the record and the argument of `downloadApp`. */
  function Key(p: Platform): string {
    match p
    case Android => "android"
    case IOS => "ios"
  }

  /** The counters record `{android, ios, total}`. */
  datatype Stats = Stats(android: nat, ios: nat, total: nat) {

    function Count(p: Platform): nat {
      match p
      case Android => android
      case IOS => ios
    }

    /** The total is the sum of the two platform counters. */
    predicate Consistent() {
      total == android + ios
    }
  }

  /** The record the script starts from before anything is loaded. */
  const Zero := Stats(0, 0, 0)

  /** `downloadStats[platform]++; downloadStats.total++`: one more download for `p`. */
  function Bump(s: Stats, p: Platform): (r: Stats)
    ensures r.Count(p) == s.Count(p) + 1
    ensures forall q :: q != p ==> r.Count(q) == s.Count(q)
    ensures r.total == s.total + 1
    ensures s.Consistent() ==> r.Consistent()
  {
    match p
    case Android => s.(android := s.android + 1, total := s.total + 1)
    case IOS => s.(ios := s.ios + 1, total := s.total + 1)
  }
}
