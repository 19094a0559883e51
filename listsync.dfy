/** The list synchronisation run (opkg_update_package_lists): feed and signature
    URLs, the slice of overall progress each source owns, the calls made per
    source, and the return code. */
module ListSync {
  import opened Wrappers
  import opened Trace
  import opened Progress

  /** A package feed (pkg_src_t): `extraData` is the optional
      "distribution/component" path segment. */
  datatype Source = Source(name: string, value: string, extraData: Option<string>, gzip: bool)

  function FeedFile(gzip: bool): string {
    if gzip then "Packages.gz" else "Packages"
  }

  /** The URL of a feed's package list. */
  function FeedUrl(src: Source): string {
    if src.extraData.Some? then src.value + "/" + src.extraData.value + "/" + FeedFile(src.gzip)
    else src.value + "/" + FeedFile(src.gzip)
  }

  /** The URL of the detached signature of the feed's package list. */
  function SignatureUrl(src: Source): string {
    if src.extraData.Some? then src.value + "/" + src.extraData.value + "/" + "Packages.sig"
    else src.value + "/" + "Packages.sig"
  }

  /** The directory of a feed: `value/extra_data/` or `value/`. */
  function FeedDir(src: Source): string {
    if src.extraData.Some? then src.value + "/" + src.extraData.value + "/" else src.value + "/"
  }

  /** The list and its signature are fetched from the same directory: the list
      is `Packages.gz` there when the feed is compressed and `Packages`
      otherwise. */
  lemma FeedUrlLayout(src: Source)
    ensures FeedUrl(src) == FeedDir(src) + (if src.gzip then "Packages.gz" else "Packages")
    ensures SignatureUrl(src) == FeedDir(src) + "Packages.sig"
  {
  }

  /** The list URL ends in `.gz` exactly when the feed is compressed. */
  lemma FeedUrlCompressed(src: Source)
    ensures var url := FeedUrl(src);
      |url| >= 3 && (url[|url| - 3..] == ".gz" <==> src.gzip)
  {
    FeedUrlLayout(src);
    var url := FeedUrl(src);
    var file := FeedFile(src.gzip);
    assert url[|url| - |file|..] == file;
    assert url[|url| - 3..] == file[|file| - 3..];
  }

  /** The slice of overall progress owned by source `done` of `count`. */
  function SourceRange(done: nat, count: nat): (r: Range)
    requires done < count
    ensures 0 <= r.start <= r.finish <= 100
    ensures r.start == 100 * done / count && r.finish == 100 * (done + 1) / count
  {
    DivMono(100 * done, 100 * (done + 1), count);
    DivMono(100 * (done + 1), 100 * count, count);
    assert 100 * count / count == 100;
    Range(100 * done / count, 100 * (done + 1) / count)
  }

  /** What the collaborators do for one source: the transport's return code and
      the progress calls it makes (it makes them only for a compressed feed),
      whether the downloaded file and the list file could be opened for
      decompression, and the return code of the signature download. */
  datatype Fetch = Fetch(code: int, ticks: seq<Tick>, inOpened: bool, outOpened: bool, sigCode: int)

  /** What the filesystem answers before the first source: whether the lists
      directory is a directory, whether the path exists at all, what creating it
      returns, and the directory mkdtemp made (None when it fails). */
  datatype ListsDir = ListsDir(isDir: bool, pathExists: bool, mkdirCode: int, tmpDir: Option<string>)

  /** The temporary directory of the run, or None when the run stops at once. */
  function Prepare(d: ListsDir): Option<string> {
    if !d.isDir && d.pathExists then None
    else if !d.isDir && d.mkdirCode != 0 then None
    else d.tmpDir
  }

  /** The list download of one source, with the slice `r` of overall progress
      it owns: a compressed feed goes to a temporary file, reporting progress
      through the filter, and is decompressed into the list file when the
      download succeeded and both files opened; a plain feed goes straight to
      the list file. */
  function FetchEvents(listsDir: string, tmp: string, src: Source, f: Fetch, r: Range, prev: int): Run
    requires ValidRange(r)
  {
    var url := FeedUrl(src);
    var listFile := listsDir + "/" + src.name;
    if src.gzip then
      var tmpFile := tmp + "/" + src.name + ".gz";
      var run := FilterUpTo(prev, r, f.ticks, |f.ticks|);
      Run(run.prev, [Download(url, tmpFile)] + run.events
                    + (if f.code == 0 && f.inOpened && f.outOpened then [Unzip(tmpFile, listFile)] else []))
    else Run(prev, [Download(url, listFile)])
  }

  /** The signature steps: with GPG support built in, the signature is
      downloaded and, when that succeeded, the list is verified against it. */
  function SignatureEvents(gpg: bool, listsDir: string, tmp: string, src: Source, f: Fetch): seq<Event> {
    var listFile := listsDir + "/" + src.name;
    var sigFile := tmp + "/" + "Packages.sig";
    if gpg then [Download(SignatureUrl(src), sigFile)] + (if f.sigCode == 0 then [Verify(listFile, sigFile)] else [])
    else []
  }

  /** Source `done` of `count`: its download, its signature steps, then the
      progress value closing its slice. */
  function SourceStep(gpg: bool, listsDir: string, tmp: string, src: Source, f: Fetch,
                      done: nat, count: nat, prev: int): Run
    requires done < count
  {
    var r := SourceRange(done, count);
    var fetched := FetchEvents(listsDir, tmp, src, f, r, prev);
    Run(fetched.prev, fetched.events + SignatureEvents(gpg, listsDir, tmp, src, f) + [Progress(r.finish)])
  }

  /** The stored percentage and the events after the first `n` sources. */
  function SyncUpTo(gpg: bool, listsDir: string, tmp: string, sources: seq<Source>, fetches: seq<Fetch>,
                    prev: int, n: nat): Run
    requires |fetches| == |sources| && n <= |sources|
  {
    if n == 0 then Run(prev, [])
    else
      var run := SyncUpTo(gpg, listsDir, tmp, sources, fetches, prev, n - 1);
      var s := SourceStep(gpg, listsDir, tmp, sources[n - 1], fetches[n - 1], n - 1, |sources|, run.prev);
      Run(s.prev, run.events + s.events)
  }

  datatype SyncResult = SyncResult(code: int, prev: int, events: seq<Event>)

  /** The whole run, from the progress filter's stored percentage `prev`. */
  function UpdateLists(gpg: bool, listsDir: string, sources: seq<Source>, d: ListsDir,
                       fetches: seq<Fetch>, prev: int): SyncResult
    requires |fetches| == |sources|
  {
    match Prepare(d)
    case None => SyncResult(1, prev, [Progress(0)])
    case Some(tmp) =>
      var run := SyncUpTo(gpg, listsDir, tmp, sources, fetches, prev, |sources|);
      SyncResult(0, run.prev, [Progress(0)] + run.events)
  }

  /** The run returns 1 only when the lists path exists and is not a
      directory, cannot be created, or no temporary directory can be made; otherwise 0, whatever the
      downloads, decompressions and signature checks of the sources did. */
  lemma UpdateListsCode(gpg: bool, listsDir: string, sources: seq<Source>, d: ListsDir,
                        fetches: seq<Fetch>, other: seq<Fetch>, prev: int)
    requires |fetches| == |sources| == |other|
    ensures var code := UpdateLists(gpg, listsDir, sources, d, fetches, prev).code;
      && (code == 1 <==> (!d.isDir && d.pathExists) || (!d.isDir && d.mkdirCode != 0) || d.tmpDir.None?)
      && (code == 0 || code == 1)
      && code == UpdateLists(gpg, listsDir, sources, d, other, prev).code
  {
  }

  /** Every source's list is downloaded from its feed URL, whatever happened to
      the sources before it. */
  lemma {:induction false} SyncUpToDownloads(gpg: bool, listsDir: string, tmp: string, sources: seq<Source>,
                                             fetches: seq<Fetch>, prev: int, n: nat, i: nat)
    requires |fetches| == |sources| && i < n <= |sources|
    ensures exists file :: (Download(FeedUrl(sources[i]), file) in
                              SyncUpTo(gpg, listsDir, tmp, sources, fetches, prev, n).events)
  {
    var run := SyncUpTo(gpg, listsDir, tmp, sources, fetches, prev, n - 1);
    if i < n - 1 {
      SyncUpToDownloads(gpg, listsDir, tmp, sources, fetches, prev, n - 1, i);
      var file :| Download(FeedUrl(sources[i]), file) in run.events;
      assert Download(FeedUrl(sources[i]), file) in SyncUpTo(gpg, listsDir, tmp, sources, fetches, prev, n).events;
    } else {
      var s := SourceStep(gpg, listsDir, tmp, sources[i], fetches[i], i, |sources|, run.prev);
      var fetched := FetchEvents(listsDir, tmp, sources[i], fetches[i], SourceRange(i, |sources|), run.prev);
      assert fetched.events[0].Download? && fetched.events[0].url == FeedUrl(sources[i]);
      assert s.events[0] == fetched.events[0];
      assert s.events[0] in SyncUpTo(gpg, listsDir, tmp, sources, fetches, prev, n).events;
    }
  }

  lemma UpdateListsDownloadsAll(gpg: bool, listsDir: string, sources: seq<Source>, d: ListsDir,
                                fetches: seq<Fetch>, prev: int, i: nat)
    requires |fetches| == |sources| && i < |sources| && Prepare(d).Some?
    ensures exists file :: (Download(FeedUrl(sources[i]), file) in
                              UpdateLists(gpg, listsDir, sources, d, fetches, prev).events)
  {
    var tmp := Prepare(d).value;
    SyncUpToDownloads(gpg, listsDir, tmp, sources, fetches, prev, |sources|, i);
    var file :| Download(FeedUrl(sources[i]), file) in
      SyncUpTo(gpg, listsDir, tmp, sources, fetches, prev, |sources|).events;
    assert Download(FeedUrl(sources[i]), file) in UpdateLists(gpg, listsDir, sources, d, fetches, prev).events;
  }

  lemma FetchProgress(listsDir: string, tmp: string, src: Source, f: Fetch, r: Range, prev: int)
    requires ValidRange(r) && (src.gzip ==> SaneTicks(f.ticks))
    ensures var vs := Progresses(FetchEvents(listsDir, tmp, src, f, r, prev).events);
      NonDecreasing(vs) && Within(vs, r.start, r.finish)
  {
    var url := FeedUrl(src);
    var listFile := listsDir + "/" + src.name;
    if src.gzip {
      var tmpFile := tmp + "/" + src.name + ".gz";
      var run := FilterUpTo(prev, r, f.ticks, |f.ticks|);
      var unzip := if f.code == 0 && f.inOpened && f.outOpened then [Unzip(tmpFile, listFile)] else [];
      FilterUpToSane(prev, r, f.ticks, |f.ticks|);
      ProgressesNone(unzip);
      ProgressesSingle(Download(url, tmpFile));
      ProgressesAppend([Download(url, tmpFile)], run.events);
      ProgressesAppend([Download(url, tmpFile)] + run.events, unzip);
      assert FetchEvents(listsDir, tmp, src, f, r, prev).events == [Download(url, tmpFile)] + run.events + unzip;
    } else {
      ProgressesSingle(Download(url, listFile));
    }
  }

  lemma SignatureNoProgress(gpg: bool, listsDir: string, tmp: string, src: Source, f: Fetch)
    ensures Progresses(SignatureEvents(gpg, listsDir, tmp, src, f)) == []
  {
    ProgressesNone(SignatureEvents(gpg, listsDir, tmp, src, f));
  }

  /** The progress values of source `done` are the filtered download values,
      all inside its slice and non-decreasing, followed by the slice's end. */
  lemma SourceStepProgress(gpg: bool, listsDir: string, tmp: string, src: Source, f: Fetch,
                           done: nat, count: nat, prev: int)
    requires done < count && (src.gzip ==> SaneTicks(f.ticks))
    ensures var r := SourceRange(done, count);
      Climbs(Progresses(SourceStep(gpg, listsDir, tmp, src, f, done, count, prev).events), r.start, r.finish)
  {
    var r := SourceRange(done, count);
    var fetched := FetchEvents(listsDir, tmp, src, f, r, prev).events;
    var sig := SignatureEvents(gpg, listsDir, tmp, src, f);
    FetchProgress(listsDir, tmp, src, f, r, prev);
    SignatureNoProgress(gpg, listsDir, tmp, src, f);
    ProgressesAppend(fetched, sig);
    ProgressesAppend(fetched + sig, [Progress(r.finish)]);
    ProgressesSingle(Progress(r.finish));
    var mid := Progresses(fetched);
    assert Progresses(SourceStep(gpg, listsDir, tmp, src, f, done, count, prev).events) == mid + [r.finish];
    NonDecreasingConcat(mid, [r.finish], r.finish);
  }

  /** Consecutive sources own adjoining slices. */
  lemma RangesAdjoin(done: nat, count: nat)
    requires done + 1 < count
    ensures SourceRange(done, count).finish == SourceRange(done + 1, count).start
  {
  }

  /** Every compressed feed's transport is well-behaved. */
  predicate SaneFetches(sources: seq<Source>, fetches: seq<Fetch>)
    requires |fetches| == |sources|
  {
    forall i :: 0 <= i < |sources| && sources[i].gzip ==> SaneTicks(fetches[i].ticks)
  }

  /** Progress values that never decrease, stay in [lo, hi] and end at hi. */
  predicate Climbs(vs: seq<int>, lo: int, hi: int) {
    NonDecreasing(vs) && Within(vs, lo, hi) && |vs| >= 1 && vs[|vs| - 1] == hi
  }

  /** Over the first `n` sources the progress values never decrease, stay in
      [0, end] and finish at `end`, where `end` closes the slice of source n-1. */
  lemma {:induction false} SyncUpToProgress(gpg: bool, listsDir: string, tmp: string, sources: seq<Source>,
                                            fetches: seq<Fetch>, prev: int, n: nat)
    requires |fetches| == |sources| && n <= |sources|
    requires SaneFetches(sources, fetches)
    ensures n == 0 ==> Progresses(SyncUpTo(gpg, listsDir, tmp, sources, fetches, prev, n).events) == []
    ensures n > 0 ==> Climbs(Progresses(SyncUpTo(gpg, listsDir, tmp, sources, fetches, prev, n).events),
                             0, SourceRange(n - 1, |sources|).finish)
  {
    if n > 0 {
      var count := |sources|;
      SyncUpToProgress(gpg, listsDir, tmp, sources, fetches, prev, n - 1);
      var run := SyncUpTo(gpg, listsDir, tmp, sources, fetches, prev, n - 1);
      var s := SourceStep(gpg, listsDir, tmp, sources[n - 1], fetches[n - 1], n - 1, count, run.prev);
      assert sources[n - 1].gzip ==> SaneTicks(fetches[n - 1].ticks);
      SourceStepProgress(gpg, listsDir, tmp, sources[n - 1], fetches[n - 1], n - 1, count, run.prev);
      var r := SourceRange(n - 1, count);
      if n > 1 {
        RangesAdjoin(n - 2, count);
      }
      ChainEvents(run.events, s.events, r.start, r.finish);
      SyncUpToUnfold(gpg, listsDir, tmp, sources, fetches, prev, n);
    }
  }

  lemma SyncUpToUnfold(gpg: bool, listsDir: string, tmp: string, sources: seq<Source>,
                       fetches: seq<Fetch>, prev: int, n: nat)
    requires |fetches| == |sources| && 0 < n <= |sources|
    ensures var run := SyncUpTo(gpg, listsDir, tmp, sources, fetches, prev, n - 1);
      SyncUpTo(gpg, listsDir, tmp, sources, fetches, prev, n).events
        == run.events + SourceStep(gpg, listsDir, tmp, sources[n - 1], fetches[n - 1], n - 1, |sources|, run.prev).events
  {
  }

  /** Events whose values climb to `mid` (or carry none), then events whose
      values climb from `mid` to `hi`, together climb from 0 to `hi`. */
  lemma ChainEvents(before: seq<Event>, after: seq<Event>, mid: int, hi: int)
    requires 0 <= mid
    requires Progresses(before) == [] || Climbs(Progresses(before), 0, mid)
    requires Climbs(Progresses(after), mid, hi)
    ensures Climbs(Progresses(before + after), 0, hi)
  {
    ProgressesAppend(before, after);
    ChainProgress(Progresses(before), Progresses(after), 0, mid, hi);
  }

  /** A run within [lo, mid] followed by a run within [mid, hi] that ends at hi. */
  lemma ChainProgress(before: seq<int>, after: seq<int>, lo: int, mid: int, hi: int)
    requires lo <= mid
    requires NonDecreasing(before) && Within(before, lo, mid)
    requires Climbs(after, mid, hi)
    ensures Climbs(before + after, lo, hi)
  {
    NonDecreasingConcat(before, after, mid);
    var vs := before + after;
    assert vs[|vs| - 1] == after[|after| - 1];
    forall i | 0 <= i < |vs| ensures lo <= vs[i] <= hi {
      if i < |before| {
        assert vs[i] == before[i];
        assert before[i] <= mid <= after[|after| - 1];
      } else {
        assert vs[i] == after[i - |before|];
      }
    }
  }

  /** Over a whole run with well-behaved transports the progress values never
      decrease, stay in [0, 100], and when any source was processed the last one
      is 100. */
  lemma UpdateListsProgress(gpg: bool, listsDir: string, sources: seq<Source>, d: ListsDir,
                            fetches: seq<Fetch>, prev: int)
    requires |fetches| == |sources|
    requires SaneFetches(sources, fetches)
    ensures var vs := Progresses(UpdateLists(gpg, listsDir, sources, d, fetches, prev).events);
      && vs[0] == 0 && NonDecreasing(vs) && Within(vs, 0, 100)
      && (Prepare(d).Some? && |sources| > 0 ==> vs[|vs| - 1] == 100)
  {
    var res := UpdateLists(gpg, listsDir, sources, d, fetches, prev);
    ProgressesSingle(Progress(0));
    if Prepare(d).Some? {
      var tmp := Prepare(d).value;
      var run := SyncUpTo(gpg, listsDir, tmp, sources, fetches, prev, |sources|);
      SyncUpToProgress(gpg, listsDir, tmp, sources, fetches, prev, |sources|);
      ProgressesAppend([Progress(0)], run.events);
      assert res.events == [Progress(0)] + run.events;
      if |sources| == 0 {
        StartThenClimb([], 100);
      } else {
        LastSliceEnds(|sources|);
        StartThenClimb(Progresses(run.events), 100);
      }
    } else {
      StartThenClimb([], 100);
    }
  }

  /** A leading 0 followed by values that climb from 0 to `end`. */
  lemma StartThenClimb(rest: seq<int>, end: int)
    requires 0 <= end
    requires rest == [] || Climbs(rest, 0, end)
    ensures var vs := [0] + rest;
      && vs[0] == 0 && NonDecreasing(vs) && Within(vs, 0, end)
      && (rest != [] ==> vs[|vs| - 1] == end)
  {
    NonDecreasingConcat([0], rest, 0);
    var vs := [0] + rest;
    forall i | 0 <= i < |vs| ensures 0 <= vs[i] <= end {
      if i > 0 {
        assert vs[i] == rest[i - 1];
      }
    }
  }

  /** The slice of the last source closes at 100. */
  lemma LastSliceEnds(count: nat)
    requires count > 0
    ensures SourceRange(count - 1, count).finish == 100
  {
    assert 100 * (count - 1 + 1) == 100 * count;
  }
}
