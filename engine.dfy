/** The library handle (opkg_t) and its public operations, as methods that
    change the handle's records, option table, progress filter and trace step
    by step the way the library does, each proved to end in the state the
    specification functions of the other modules describe. */
module Engine {
  import opened Wrappers
  import opened Packages
  import opened Trace
  import opened Configure
  import opened Progress
  import opened ListSync
  import opened Options
  import opened PublicApi
  import opened Transactions

  class Opkg {
    /** The configuration read when the handle was made. */
    const conf: Conf
    /** The package vector and the abstract records their parents point at. */
    var pkgs: seq<Pkg>
    var abstracts: seq<AbstractPkg>
    /** The option table. */
    var options: seq<OptionEntry>
    /** Everything the handle has asked of its collaborators and reported to
        its callers, in order. */
    var trace: seq<Event>
    /** The progress filter's stored percentage (the static `prev` of
        curl_progress_cb). */
    var prev: int

    function Records(): Db
      reads this
    {
      Db(pkgs, abstracts)
    }

    ghost predicate Valid()
      reads this
    {
      ValidDb(Records())
    }

    /** A handle over the given records and option table, with an empty trace
        and a filter that has stored no percentage yet. */
    constructor (conf: Conf, pkgs: seq<Pkg>, abstracts: seq<AbstractPkg>, options: seq<OptionEntry>)
      requires ValidDb(Db(pkgs, abstracts))
      ensures Valid()
      ensures this.conf == conf && this.pkgs == pkgs && this.abstracts == abstracts
      ensures this.options == options && trace == [] && prev == -1
    {
      this.conf := conf;
      this.pkgs := pkgs;
      this.abstracts := abstracts;
      this.options := options;
      trace := [];
      prev := -1;
    }

    /** opkg_configure_packages: one pass over the vector. */
    method ConfigurePackages(filter: Filter, configure: nat -> int) returns (err: int)
      requires Valid()
      modifies this`pkgs, this`abstracts, this`trace
      ensures Valid()
      ensures var c := ConfigureAll(old(Records()), filter, configure);
        Records() == c.db && err == c.err && trace == old(trace) + c.events
    {
      ghost var start := Records();
      err := 0;
      var i := 0;
      while i < |pkgs|
        invariant |pkgs| == |start.pkgs| && i <= |pkgs|
        invariant var c := ConfigureUpTo(start, filter, configure, i);
          Records() == c.db && err == c.err && trace == old(trace) + c.events
      {
        var pkg := pkgs[i];
        if Selected(filter, pkg) && pkg.stateStatus == Unpacked {
          var r := configure(i);
          trace := trace + [ConfigurePkg(i)];
          if r == 0 {
            pkgs := pkgs[i := Configured(pkg)];
            abstracts := abstracts[pkg.parent := abstracts[pkg.parent].(stateStatus := Installed)];
          } else if err == 0 {
            err := r;
          }
        }
        i := i + 1;
      }
    }

    /** curl_progress_cb: one call from the transport during a download that
        owns the slice `r`; it always returns 0. */
    method CurlProgress(r: Range, t: Tick) returns (code: int)
      requires ValidRange(r)
      modifies this`prev, this`trace
      ensures var s := CurlStep(old(prev), r, t);
        && prev == s.prev
        && trace == old(trace) + (if s.report.Some? then [Progress(s.report.value)] else [])
      ensures code == 0
    {
      var p := Percent(t);
      if p == prev {
        return 0;
      }
      prev := p;
      if t.total < 1 {
        return 0;
      }
      trace := trace + [Progress(Interpolate(r, t))];
      return 0;
    }

    /** A compressed feed's download: the transport's calls, each through the
        filter. */
    method DownloadWithProgress(r: Range, ticks: seq<Tick>)
      requires ValidRange(r)
      modifies this`prev, this`trace
      ensures var run := FilterUpTo(old(prev), r, ticks, |ticks|);
        prev == run.prev && trace == old(trace) + run.events
    {
      var n := 0;
      while n < |ticks|
        invariant n <= |ticks|
        invariant var run := FilterUpTo(old(prev), r, ticks, n);
          prev == run.prev && trace == old(trace) + run.events
      {
        var ignored := CurlProgress(r, ticks[n]);
        n := n + 1;
      }
    }

    /** The list download of one source that owns the slice `r`. */
    method FetchList(listsDir: string, tmp: string, src: Source, f: Fetch, r: Range)
      requires ValidRange(r)
      modifies this`prev, this`trace
      ensures var run := FetchEvents(listsDir, tmp, src, f, r, old(prev));
        prev == run.prev && trace == old(trace) + run.events
    {
      var url := FeedUrl(src);
      var listFile := listsDir + "/" + src.name;
      if src.gzip {
        var tmpFile := tmp + "/" + src.name + ".gz";
        trace := trace + [Download(url, tmpFile)];
        ghost var before := trace;
        DownloadWithProgress(r, f.ticks);
        ghost var middle := trace;
        if f.code == 0 && f.inOpened && f.outOpened {
          trace := trace + [Unzip(tmpFile, listFile)];
        }
        assert trace == middle + (if f.code == 0 && f.inOpened && f.outOpened then [Unzip(tmpFile, listFile)] else []);
      } else {
        trace := trace + [Download(url, listFile)];
      }
    }

    /** The signature steps of one source. */
    method FetchSignature(listsDir: string, tmp: string, src: Source, f: Fetch)
      modifies this`trace
      ensures trace == old(trace) + SignatureEvents(conf.gpg, listsDir, tmp, src, f)
    {
      if conf.gpg {
        var listFile := listsDir + "/" + src.name;
        var sigFile := tmp + "/" + "Packages.sig";
        trace := trace + [Download(SignatureUrl(src), sigFile)];
        if f.sigCode == 0 {
          trace := trace + [Verify(listFile, sigFile)];
        }
      }
    }

    /** One source of opkg_update_package_lists: its list download, its
        signature steps, and the progress value closing its slice. */
    method SyncSource(listsDir: string, tmp: string, done: nat, count: nat, f: Fetch)
      requires done < count == |conf.sources|
      modifies this`prev, this`trace
      ensures var s := SourceStep(conf.gpg, listsDir, tmp, conf.sources[done], f, done, count, old(prev));
        prev == s.prev && trace == old(trace) + s.events
    {
      var src := conf.sources[done];
      var r := SourceRange(done, count);
      FetchList(listsDir, tmp, src, f, r);
      FetchSignature(listsDir, tmp, src, f);
      trace := trace + [Progress(r.finish)];
    }

    /** The first loop of opkg_update_package_lists: the number of sources. */
    method CountSources() returns (count: nat)
      ensures count == |conf.sources|
    {
      count := 0;
      var rest := conf.sources;
      while rest != []
        invariant count + |rest| == |conf.sources|
      {
        count := count + 1;
        rest := rest[1..];
      }
    }

    /** The second loop of opkg_update_package_lists, over the `count`
        sources. */
    method SyncSources(listsDir: string, tmp: string, count: nat, fetches: seq<Fetch>)
      requires |fetches| == |conf.sources| == count
      modifies this`prev, this`trace
      ensures var run := SyncUpTo(conf.gpg, listsDir, tmp, conf.sources, fetches, old(prev), |conf.sources|);
        prev == run.prev && trace == old(trace) + run.events
    {
      ghost var p0, t0 := prev, trace;
      var done := 0;
      while done < count
        invariant done <= count
        invariant var run := SyncUpTo(conf.gpg, listsDir, tmp, conf.sources, fetches, p0, done);
          prev == run.prev && trace == t0 + run.events
      {
        ghost var run := SyncUpTo(conf.gpg, listsDir, tmp, conf.sources, fetches, p0, done);
        SyncSource(listsDir, tmp, done, count, fetches[done]);
        ghost var s := SourceStep(conf.gpg, listsDir, tmp, conf.sources[done], fetches[done], done, count, run.prev);
        SyncUpToUnfold(conf.gpg, listsDir, tmp, conf.sources, fetches, p0, done + 1);
        AppendAssoc(t0, run.events, s.events);
        done := done + 1;
      }
    }

    /** opkg_update_package_lists. */
    method UpdatePackageLists(d: ListsDir, fetches: seq<Fetch>) returns (code: int)
      requires |fetches| == |conf.sources|
      modifies this`prev, this`trace
      ensures var res := UpdateLists(conf.gpg, ListsDirPath(conf), conf.sources, d, fetches, old(prev));
        code == res.code && prev == res.prev && trace == old(trace) + res.events
    {
      trace := trace + [Progress(0)];
      var listsDir := ListsDirPath(conf);
      if !d.isDir {
        if d.pathExists {
          return 1;
        }
        if d.mkdirCode != 0 {
          return 1;
        }
      }
      if d.tmpDir.None? {
        return 1;
      }
      var count := CountSources();
      SyncSources(listsDir, d.tmpDir.value, count, fetches);
      return 0;
    }

    /** The steps of opkg_install_package before the install step returns:
        progress 0, fetching the package, progress 50, the pre-install check,
        and the install call on the prepared id or, failing that, the name. */
    method InstallPrelude(name: string, prepared: Option<string>)
      modifies this`trace
      ensures trace == old(trace) + InstallHead(conf, name, prepared)
    {
      trace := trace + [Progress(0), PrepareUrl(name), Progress(50), PreinstallCheck];
      var id := if prepared.Some? then prepared.value else name;
      if conf.multipleProviders {
        trace := trace + [InstallMultiByName(id)];
      } else {
        trace := trace + [InstallByName(id)];
      }
    }

    /** opkg_install_package; `prepared` is the id preparing the URL produced,
        `unpack` what the install step returned and left behind. */
    method InstallPackage(name: string, prepared: Option<string>, unpack: Delegate, configure: nat -> int)
      returns (code: int)
      requires ValidDb(unpack.db)
      modifies this`pkgs, this`abstracts, this`trace
      ensures Valid()
      ensures var tx := Install(conf, name, prepared, unpack, configure);
        Records() == tx.db && code == tx.code && trace == old(trace) + tx.events
    {
      ghost var head := InstallHead(conf, name, prepared);
      InstallPrelude(name, prepared);
      pkgs, abstracts := unpack.db.pkgs, unpack.db.abstracts;
      if unpack.code != 0 {
        return unpack.code;
      }
      trace := trace + [Progress(75)];
      var err := ConfigurePackages(AllNames, configure);
      ghost var c := ConfigureAll(unpack.db, AllNames, configure);
      assert trace == old(trace) + (head + [Progress(75)] + c.events);
      if err != 0 {
        return err;
      }
      trace := trace + [WriteStatusFiles, WriteFilelists, Progress(100)];
      assert trace == old(trace) + (head + [Progress(75)] + c.events + [WriteStatusFiles, WriteFilelists, Progress(100)]);
      return 0;
    }

    /** opkg_remove_package; `remover` is what the remove step left behind. */
    method RemovePackage(name: string, byName: string -> Option<nat>, byNameDest: (string, nat) -> Option<nat>,
                         remover: Delegate) returns (code: int)
      requires Valid() && NameQuery(Records(), byName) && ValidDb(remover.db)
      modifies this`pkgs, this`abstracts, this`trace
      ensures Valid()
      ensures var tx := Remove(conf, old(Records()), name, byName, byNameDest, remover);
        Records() == tx.db && code == tx.code && trace == old(trace) + tx.events
    {
      trace := trace + [Progress(0), PreinstallCheck, Progress(25)];
      var found := byName(name);
      if found.None? {
        return 1;
      }
      var pkg := pkgs[found.value];
      if pkg.stateStatus == NotInstalled {
        return 1;
      }
      trace := trace + [Progress(75)];
      var target := if conf.restrictToDefaultDest then byNameDest(pkg.name, conf.defaultDest) else byName(pkg.name);
      trace := trace + [Progress(75), RemovePkg(target)];
      pkgs, abstracts := remover.db.pkgs, remover.db.abstracts;
      trace := trace + [WriteStatusFiles, WriteFilelists, Progress(100)];
      return 0;
    }

    /** The steps of opkg_upgrade_package once record `k` was found: progress
        25, the upgrade step, progress 75, configure-all and progress 100. */
    method UpgradeFound(k: nat, up: Delegate, configure: nat -> int)
      requires ValidDb(up.db)
      modifies this`pkgs, this`abstracts, this`trace
      ensures Valid()
      ensures var c := ConfigureAll(up.db, AllNames, configure);
        Records() == c.db && trace == old(trace) + [Progress(25), UpgradePkg(k), Progress(75)] + c.events + [Progress(100)]
    {
      trace := trace + [Progress(25), UpgradePkg(k)];
      pkgs, abstracts := up.db.pkgs, up.db.abstracts;
      trace := trace + [Progress(75)];
      var ignored := ConfigurePackages(AllNames, configure);
      trace := trace + [Progress(100)];
    }

    /** opkg_upgrade_package; `up` is what the upgrade step left behind. */
    method UpgradePackage(name: string, byName: string -> Option<nat>, byNameDest: (string, nat) -> Option<nat>,
                          up: Delegate, configure: nat -> int) returns (code: int)
      requires Valid() && ValidDb(up.db)
      modifies this`pkgs, this`abstracts, this`trace
      ensures Valid()
      ensures var tx := Upgrade(conf, old(Records()), name, byName, byNameDest, up, configure);
        Records() == tx.db && code == tx.code && trace == old(trace) + tx.events
    {
      var head: seq<Event> := [Progress(0), PreinstallCheck];
      trace := trace + head;
      var found: Option<nat>;
      if conf.restrictToDefaultDest {
        found := byNameDest(name, conf.defaultDest);
        if found.None? {
          return 1;
        }
      } else {
        found := byName(name);
      }
      if found.None? {
        return 1;
      }
      ghost var c := ConfigureAll(up.db, AllNames, configure);
      ghost var rest := [Progress(25), UpgradePkg(found.value), Progress(75)] + c.events + [Progress(100)];
      UpgradeFound(found.value, up, configure);
      AppendAssoc(old(trace), head, rest);
      return 0;
    }

    /** The loop of opkg_upgrade_all: each installed record upgraded in turn,
        the codes summed, and progress 100*i/len after record i. */
    method UpgradeEach(installed: seq<nat>, ups: seq<Delegate>) returns (err: int)
      requires Valid() && |ups| == |installed| && AllValid(ups)
      modifies this`pkgs, this`abstracts, this`trace
      ensures Valid()
      ensures var loop := UpgradeLoop(installed, ups, |installed|);
        err == loop.err && trace == old(trace) + loop.events && Records() == AfterUpgrades(old(Records()), ups)
    {
      ghost var start, t0 := Records(), trace;
      err := 0;
      var i := 0;
      while i < |installed|
        invariant i <= |installed|
        invariant var loop := UpgradeLoop(installed, ups, i);
          err == loop.err && trace == t0 + loop.events
        invariant Records() == if i == 0 then start else ups[i - 1].db
        invariant Valid()
      {
        ghost var loop := UpgradeLoop(installed, ups, i);
        err := err + ups[i].code;
        pkgs, abstracts := ups[i].db.pkgs, ups[i].db.abstracts;
        trace := trace + [UpgradePkg(installed[i]), Progress(100 * i / |installed|)];
        AppendAssoc(t0, loop.events, [UpgradePkg(installed[i]), Progress(100 * i / |installed|)]);
        i := i + 1;
      }
    }

    /** opkg_upgrade_all over the installed records `installed`; `ups[i]` is
        what upgrading installed[i] returned and left behind. */
    method UpgradeAll(installed: seq<nat>, ups: seq<Delegate>, configure: nat -> int) returns (code: int)
      requires Valid() && |ups| == |installed| && AllValid(ups)
      modifies this`pkgs, this`abstracts, this`trace
      ensures Valid()
      ensures var tx := Transactions.UpgradeAll(old(Records()), installed, ups, configure);
        Records() == tx.db && code == tx.code && trace == old(trace) + tx.events
    {
      ghost var head: seq<Event> := [Progress(0), PreinstallCheck];
      ghost var loop := UpgradeLoop(installed, ups, |installed|);
      trace := trace + [Progress(0), PreinstallCheck];
      var err := UpgradeEach(installed, ups);
      AppendAssoc(old(trace), head, loop.events);
      if err != 0 {
        return 1;
      }
      ghost var c := ConfigureAll(AfterUpgrades(old(Records()), ups), AllNames, configure);
      err := ConfigurePackages(AllNames, configure);
      AppendAssoc(old(trace), head + loop.events, c.events);
      if err != 0 {
        return 1;
      }
      trace := trace + [Progress(100)];
      AppendAssoc(old(trace), head + loop.events + c.events, [Progress(100)]);
      return 0;
    }

    /** opkg_set_option: the first entry of that name takes the value. */
    method SetOption(name: string, arg: OptionArg)
      requires HasOption(options, name) && Fits(options[FirstIndex(options, name).value].value, arg)
      modifies this`options
      ensures options == SetValue(old(options), name, arg)
    {
      var i := OptionIndex(options, name);
      assert i == FirstIndex(options, name).value;
      var entry := options[i];
      options := options[i := entry.(value := Store(entry.value, arg))];
    }

    /** opkg_list_packages: one public record per record of the vector, in
        order, marked installed exactly when the record is INSTALLED; it
        returns 0. */
    method ListPackages() returns (delivered: seq<PublicPackage>, code: int)
      ensures |delivered| == |pkgs|
      ensures forall i :: 0 <= i < |pkgs| ==> delivered[i] == Project(pkgs[i])
      ensures forall i :: 0 <= i < |pkgs| ==>
        (delivered[i].installed == 1 <==> pkgs[i].stateStatus == Installed) &&
        delivered[i].name == Some(pkgs[i].name)
      ensures code == 0
    {
      delivered := [];
      var i := 0;
      while i < |pkgs|
        invariant i <= |pkgs| && |delivered| == i
        invariant forall j :: 0 <= j < i ==> delivered[j] == Project(pkgs[j])
      {
        var pkg := pkgs[i];
        var package := PackageNewWithValues(Some(pkg.name), pkg.version, pkg.architecture, pkg.description,
                                            pkg.tags, if pkg.stateStatus == Installed then 1 else 0);
        delivered := delivered + [package];
        i := i + 1;
      }
      code := 0;
    }
  }
}
