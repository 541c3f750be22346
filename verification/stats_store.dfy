/**
 * The download-statistics store of the landing page script: an in-memory
 * counters record, a single browser-storage slot it is saved to and loaded
 * from, and the operations the page performs on them.
 */
module StatsStore {
  import opened Options
  import opened DownloadStats
  import opened StatsJson
  import opened Text

  /** The storage slot under the key `strayConnectedDownloads`: nothing stored yet, or the text last written there (by this page or anyone else). */
  datatype Slot = Absent | Stored(text: string)

  /** Exceptions the store lets escape: `JSON.parse` of unreadable text, `setItem` refused by the browser. */
  datatype Fault = SyntaxError | QuotaExceeded

  /**
   * The module-level record `mem`, the storage slot, and whether the browser
   * currently accepts writes to storage (it refuses when the quota is used up
   * or storage is disabled).
   */
  datatype Store = Store(mem: Stats, slot: Slot, writable: bool)

  /**
   * The store after an operation: either it returned `value`, or an exception
   * escaped. Neither the page nor an exception undoes assignments already
   * made, so both carry the state reached.
   */
  datatype Outcome<+T> = Ok(store: Store, value: T) | Threw(store: Store, fault: Fault)

  /** The record the slot holds, if its text reads as one. */
  function Persisted(slot: Slot): Option<Stats> {
    match slot
    case Absent => None
    case Stored(t) => Decode(t)
  }

  /** `if (saved)`: `getItem` returned a string, and not the empty (falsy) one. */
  predicate HasSaved(slot: Slot) {
    slot.Stored? && slot.text != ""
  }

  /**
   * `loadDownloadStats`: with nothing saved the record is left as it is (not
   * reset); with a saved record it is replaced by it wholesale; with saved
   * text that does not parse, `JSON.parse` throws before anything is assigned.
   */
  function Load(s: Store): (r: Outcome<()>)
    ensures r.store.slot == s.slot && r.store.writable == s.writable
    ensures !HasSaved(s.slot) ==> r == Ok(s, ())
    ensures HasSaved(s.slot) && Persisted(s.slot).Some? ==> r == Ok(s.(mem := Persisted(s.slot).value), ())
    ensures r.Threw? <==> HasSaved(s.slot) && Persisted(s.slot).None?
    ensures r.Threw? ==> r.store == s && r.fault == SyntaxError
  {
    if HasSaved(s.slot) then
      match Decode(s.slot.text)
      case Some(saved) => Ok(s.(mem := saved), ())
      case None => Threw(s, SyntaxError)
    else
      Ok(s, ())
  }

  /**
   * `saveDownloadStats`: writes the whole record. When the write goes through,
   * the slot then reads back as exactly the in-memory record; when the browser
   * refuses it, `setItem` throws and nothing changes.
   */
  function Save(s: Store): (r: Outcome<()>)
    ensures r.store.mem == s.mem && r.store.writable == s.writable
    ensures r.Ok? <==> s.writable
    ensures r.Ok? ==> Persisted(r.store.slot) == Some(s.mem) && HasSaved(r.store.slot)
    ensures r.Threw? ==> r.store == s && r.fault == QuotaExceeded
  {
    if s.writable then
      Ok(s.(slot := Stored(Stringify(s.mem))), ())
    else
      Threw(s, QuotaExceeded)
  }

  /**
   * The counter update in `downloadApp`: one more download for `p` and one
   * more in total, then a save. The counters move even when the save throws,
   * because they are incremented first; only then does the slot lag behind.
   */
  function RecordDownload(s: Store, p: Platform): (r: Outcome<()>)
    ensures r.store.mem.Count(p) == s.mem.Count(p) + 1
    ensures forall q :: q != p ==> r.store.mem.Count(q) == s.mem.Count(q)
    ensures r.store.mem.total == s.mem.total + 1
    ensures s.mem.Consistent() ==> r.store.mem.Consistent()
    ensures r.store.writable == s.writable
    ensures r.Ok? <==> s.writable
    ensures r.Ok? ==> Persisted(r.store.slot) == Some(r.store.mem)
    ensures r.Threw? ==> r.store.slot == s.slot && r.fault == QuotaExceeded
  {
    Save(s.(mem := Bump(s.mem, p)))
  }

  /**
   * `getDownloadStats`: reload, then hand out the record. It is the saved
   * record when there is one, the in-memory record when nothing is saved, and
   * the `JSON.parse` exception when the saved text is unreadable.
   */
  function GetStats(s: Store): (r: Outcome<Stats>)
    ensures r.store.slot == s.slot && r.store.writable == s.writable
    ensures r.Ok? ==> r.value == r.store.mem
    ensures r.Ok? && HasSaved(s.slot) ==> Persisted(s.slot) == Some(r.value)
    ensures r.Ok? && !HasSaved(s.slot) ==> r.value == s.mem && r.store == s
    ensures r.Threw? <==> HasSaved(s.slot) && Persisted(s.slot).None?
    ensures r.Threw? ==> r.store == s && r.fault == SyntaxError
  {
    match Load(s)
    case Ok(loaded, _) => Ok(loaded, loaded.mem)
    case Threw(st, f) => Threw(st, f)
  }

  /** The file `exportDownloadStats` offers for saving. */
  datatype ExportFile = ExportFile(fileName: string, mimeType: string, contents: string)

  /** `download-stats-<date>.json`, the date being the part of the ISO timestamp before its `T`. */
  function ExportFileName(isoNow: string): (r: string)
    ensures StartsWith(r, "download-stats-") && EndsWith(r, ".json")
    ensures |r| >= |"download-stats-"| + |".json"|
    ensures var date := r[|"download-stats-"|..|r| - |".json"|];
      date <= isoNow && 'T' !in date && (|date| < |isoNow| ==> isoNow[|date|] == 'T')
  {
    "download-stats-" + BeforeFirst(isoNow, 'T') + ".json"
  }

  /**
   * `exportDownloadStats`: the record `getDownloadStats` returns, as indented
   * JSON, in a file named after the current date. `isoNow` stands for
   * `new Date().toISOString()`.
   */
  function ExportStats(s: Store, isoNow: string): (r: Outcome<ExportFile>)
    ensures r.store == GetStats(s).store
    ensures r.Ok? <==> GetStats(s).Ok?
    ensures r.Ok? ==> Decode(r.value.contents) == Some(GetStats(s).value)
    ensures r.Ok? ==> r.value.mimeType == "application/json"
    ensures r.Ok? ==> r.value.fileName == ExportFileName(isoNow)
    ensures r.Ok? ==> r.value.contents == StringifyPretty(GetStats(s).value)
    ensures r.Threw? ==> r.fault == SyntaxError
  {
    match GetStats(s)
    case Ok(st, stats) =>
      Ok(st, ExportFile(ExportFileName(isoNow), "application/json", StringifyPretty(stats)))
    case Threw(st, f) => Threw(st, f)
  }

  lemma ExportFileNameOfDate(date: string, time: string)
    requires 'T' !in date
    ensures ExportFileName(date + "T" + time) == "download-stats-" + date + ".json"
  {
    BeforeFirstOf(date, 'T', time);
  }

  /** Script start-up: the zero record, then `loadDownloadStats()` against whatever storage holds. */
  function Boot(slot: Slot, writable: bool): (r: Outcome<()>)
    ensures r.store.slot == slot && r.store.writable == writable
    ensures r.Ok? <==> !(HasSaved(slot) && Persisted(slot).None?)
    ensures r.Ok? ==> r.store.mem == (if HasSaved(slot) then Persisted(slot).value else Zero)
    ensures r.Threw? ==> r.store.mem == Zero && r.fault == SyntaxError
  {
    Load(Store(Zero, slot, writable))
  }

  // ---------------------------------------------------------------------
  // Properties of single operations

  /** Save then load: the record survives `JSON.stringify` followed by `JSON.parse`. */
  lemma SaveThenLoad(s: Store)
    requires s.writable
    ensures Save(s).Ok?
    ensures Load(Save(s).store) == Ok(Save(s).store, ())
    ensures Load(Save(s).store).store.mem == s.mem
  {
  }

  /** A stored record replaces the in-memory one entirely, whatever that was. */
  lemma LoadReplaces(m: Stats, saved: Stats, writable: bool)
    ensures Load(Store(m, Stored(Stringify(saved)), writable)) == Ok(Store(saved, Stored(Stringify(saved)), writable), ())
  {
  }

  /** Nothing stored, or the empty string stored: loading keeps the in-memory record. */
  lemma LoadNothingKeeps(m: Stats, writable: bool)
    ensures Load(Store(m, Absent, writable)) == Ok(Store(m, Absent, writable), ())
    ensures Load(Store(m, Stored(""), writable)) == Ok(Store(m, Stored(""), writable), ())
  {
  }

  /** Loading twice is loading once, also when unreadable saved text makes both loads throw. */
  lemma LoadIdempotent(s: Store)
    ensures Load(Load(s).store) == Load(s)
  {
  }

  /** Asking for the statistics twice in a row gives the same outcome, a record or the same exception, and leaves the store as the first call did. */
  lemma GetStatsIdempotent(s: Store)
    ensures GetStats(GetStats(s).store) == GetStats(s)
  {
  }

  /** Once a download has been recorded with storage accepting writes, a reload changes nothing. */
  lemma RecordThenGetStats(s: Store, p: Platform)
    requires s.writable
    ensures GetStats(RecordDownload(s, p).store) == Ok(RecordDownload(s, p).store, RecordDownload(s, p).store.mem)
  {
  }

  /**
   * Unreadable saved text makes start-up throw, but only the statements after
   * the start-up load are skipped: the zero record is in place and the
   * download handler stays callable. The first download with writes accepted
   * then replaces the text with a consistent record counted from zero.
   */
  lemma CorruptSlotRecovered(t: string, p: Platform)
    requires t != "" && Decode(t) == None
    ensures Boot(Stored(t), true).Threw?
    ensures Boot(Stored(t), true).store.mem == Zero
    ensures var r := RecordDownload(Boot(Stored(t), true).store, p);
      r.Ok? && r.store.mem == Bump(Zero, p) && Persisted(r.store.slot) == Some(Bump(Zero, p))
  {
  }

  // ---------------------------------------------------------------------
  // Sequences of page events

  /**
   * What can happen to the store: a download button, `getDownloadStats()`,
   * `exportDownloadStats()`, or the browser starting or ceasing to accept
   * writes to storage (quota freed or used up elsewhere, storage disabled).
   */
  datatype Event = Download(platform: Platform) | Inspect | Export(isoNow: string) | SetWritable(writable: bool)

  /** The store after one event, whether its handler returned or threw. */
  function Step(s: Store, e: Event): Store {
    match e
    case Download(p) => RecordDownload(s, p).store
    case Inspect => GetStats(s).store
    case Export(now) => ExportStats(s, now).store
    case SetWritable(w) => s.(writable := w)
  }

  /** The store after a run of events; an exception in one handler does not stop the page. */
  function Run(s: Store, es: seq<Event>): Store
    decreases |es|
  {
    if |es| == 0 then s else Run(Step(s, es[0]), es[1..])
  }

  /** Every record the slot can be read as satisfies `total == android + ios`. */
  predicate SlotConsistent(slot: Slot) {
    Persisted(slot).Some? ==> Persisted(slot).value.Consistent()
  }

  /** The in-memory record and the saved one both keep the total equal to the sum. */
  predicate Good(s: Store) {
    s.mem.Consistent() && SlotConsistent(s.slot)
  }

  lemma StepKeepsGood(s: Store, e: Event)
    requires Good(s)
    ensures Good(Step(s, e))
  {
  }

  lemma {:induction false} RunKeepsGood(s: Store, es: seq<Event>)
    requires Good(s)
    ensures Good(Run(s, es))
    decreases |es|
  {
    if |es| > 0 {
      StepKeepsGood(s, es[0]);
      RunKeepsGood(Step(s, es[0]), es[1..]);
    }
  }

  /** From a storage slot that holds nothing or a consistent record, the page starts in a good state. */
  lemma BootGood(slot: Slot, writable: bool)
    requires SlotConsistent(slot)
    ensures Good(Boot(slot, writable).store)
  {
  }

  /** The invariant holds after any run of events that follows a start-up from such a slot. */
  lemma InvariantAlways(slot: Slot, writable: bool, es: seq<Event>)
    requires SlotConsistent(slot)
    ensures Run(Boot(slot, writable).store, es).mem.Consistent()
  {
    BootGood(slot, writable);
    RunKeepsGood(Boot(slot, writable).store, es);
  }

  function CountOf(ps: seq<Platform>, p: Platform): nat {
    if |ps| == 0 then 0 else (if ps[0] == p then 1 else 0) + CountOf(ps[1..], p)
  }

  /** One download event per platform, in order. */
  function Downloads(ps: seq<Platform>): seq<Event> {
    seq(|ps|, i requires 0 <= i < |ps| => Download(ps[i]))
  }

  /**
   * A run of downloads adds one per download to the platform's counter and to
   * the total, whether or not storage accepts the writes.
   */
  lemma {:induction false} DownloadsCounted(s: Store, ps: seq<Platform>)
    ensures forall q :: Run(s, Downloads(ps)).mem.Count(q) == s.mem.Count(q) + CountOf(ps, q)
    ensures Run(s, Downloads(ps)).mem.total == s.mem.total + |ps|
    ensures Run(s, Downloads(ps)).writable == s.writable
    decreases |ps|
  {
    if |ps| > 0 {
      var es := Downloads(ps);
      assert es[1..] == Downloads(ps[1..]);
      DownloadsCounted(Step(s, es[0]), ps[1..]);
    }
  }

  /** After at least one download with storage accepting writes, storage holds exactly the in-memory record. */
  lemma {:induction false} DownloadsWriteThrough(s: Store, ps: seq<Platform>)
    requires s.writable && |ps| > 0
    ensures Persisted(Run(s, Downloads(ps)).slot) == Some(Run(s, Downloads(ps)).mem)
    decreases |ps|
  {
    var es := Downloads(ps);
    assert es[1..] == Downloads(ps[1..]);
    if |ps| > 1 {
      DownloadsWriteThrough(Step(s, es[0]), ps[1..]);
    }
  }

  /** Three Android downloads and two iOS downloads from a fresh page give `{android: 3, ios: 2, total: 5}`. */
  lemma ThreeAndroidTwoIOS(writable: bool)
    ensures Run(Store(Zero, Absent, writable), Downloads([Android, Android, Android, IOS, IOS])).mem == Stats(3, 2, 5)
  {
    var ps := [Android, Android, Android, IOS, IOS];
    DownloadsCounted(Store(Zero, Absent, writable), ps);
    var m := Run(Store(Zero, Absent, writable), Downloads(ps)).mem;
    assert m.Count(Android) == 3 && m.Count(IOS) == 2;
  }

  /** One Android download, then a page reload: the new page starts from `{android: 1, ios: 0, total: 1}`. */
  lemma ReloadAfterDownload()
    ensures Boot(RecordDownload(Store(Zero, Absent, true), Android).store.slot, true).store.mem == Stats(1, 0, 1)
  {
  }
}
