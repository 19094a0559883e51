/** The transaction pipelines of the engine as specifications: install, remove,
    upgrade and upgrade-all, each a function from the records before the call
    and the answers of the collaborators to the records after it, the events it
    causes in order, and the code it returns. */
module Transactions {
  import opened Wrappers
  import opened Packages
  import opened Trace
  import opened Configure
  import opened ListSync
  import Arith = Progress

  /** The configuration the pipelines read (opkg_conf_t). */
  datatype Conf = Conf(
    restrictToDefaultDest: bool,
    defaultDest: nat,
    multipleProviders: bool,
    listsDir: string,
    defaultDestListsDir: string,
    sources: seq<Source>,
    gpg: bool)

  /** The lists directory of a list sync: the default destination's when
      operations are restricted to it. */
  function ListsDirPath(conf: Conf): string {
    if conf.restrictToDefaultDest then conf.defaultDestListsDir else conf.listsDir
  }

  /** What a delegate (install, remove, upgrade) returns and the records it
      leaves behind. */
  datatype Delegate = Delegate(code: int, db: Db)

  datatype TxResult = TxResult(db: Db, events: seq<Event>, code: int)

  /** pkg_hash_fetch_installed_by_name: an answer is a record of that name. */
  ghost predicate NameQuery(db: Db, byName: string -> Option<nat>) {
    forall s :: byName(s).Some? ==> byName(s).value < |db.pkgs| && db.pkgs[byName(s).value].name == s
  }

  /** pkg_hash_fetch_installed_by_name_dest: an answer is a record of that
      name in that destination. */
  ghost predicate DestQuery(db: Db, byNameDest: (string, nat) -> Option<nat>) {
    forall s, d :: byNameDest(s, d).Some? ==>
      && byNameDest(s, d).value < |db.pkgs|
      && db.pkgs[byNameDest(s, d).value].name == s
      && db.pkgs[byNameDest(s, d).value].dest == d
  }

  /** The installed record of that name that remove and upgrade act on: the
      one in the default destination when operations are restricted to it
      (None when there is none there), otherwise the one found by name alone. */
  function ScopedLookup(conf: Conf, name: string, byName: string -> Option<nat>,
                        byNameDest: (string, nat) -> Option<nat>): Option<nat>
  {
    if conf.restrictToDefaultDest then byNameDest(name, conf.defaultDest) else byName(name)
  }

  /** The configure calls of a configure-all pass carry no progress value and
      no status write. */
  lemma ConfigureQuiet(db: Db, configure: nat -> int)
    requires ValidDb(db)
    ensures var ev := ConfigureAll(db, AllNames, configure).events;
      && Progresses(ev) == []
      && WriteStatusFiles !in ev && WriteFilelists !in ev
      && forall i :: 0 <= i < |ev| ==> ev[i].ConfigurePkg?
  {
    ConfigureAllCallsOnly(db, AllNames, configure);
    ProgressesNone(ConfigureAll(db, AllNames, configure).events);
  }

  // ---------------------------------------------------------------- install

  /** Up to the install delegate: progress 0, fetching the package, progress
      50, the pre-install check, and the install call on the prepared id (the
      name itself when preparing produced none). */
  function InstallHead(conf: Conf, name: string, prepared: Option<string>): seq<Event> {
    var id := if prepared.Some? then prepared.value else name;
    [Progress(0), PrepareUrl(name), Progress(50), PreinstallCheck,
     if conf.multipleProviders then InstallMultiByName(id) else InstallByName(id)]
  }

  /** opkg_install_package: a failing install delegate ends the call with its
      code; otherwise progress 75 and configure-all, whose failure ends the call
      with its code; otherwise the status files and file lists are written,
      progress 100, and 0. */
  function Install(conf: Conf, name: string, prepared: Option<string>, unpack: Delegate,
                   configure: nat -> int): TxResult
    requires ValidDb(unpack.db)
  {
    var head := InstallHead(conf, name, prepared);
    if unpack.code != 0 then TxResult(unpack.db, head, unpack.code)
    else
      var c := ConfigureAll(unpack.db, AllNames, configure);
      if c.err != 0 then TxResult(c.db, head + [Progress(75)] + c.events, c.err)
      else TxResult(c.db, head + [Progress(75)] + c.events + [WriteStatusFiles, WriteFilelists, Progress(100)], 0)
  }

  lemma InstallHeadProgress(conf: Conf, name: string, prepared: Option<string>)
    ensures Progresses(InstallHead(conf, name, prepared)) == [0, 50]
    ensures WriteStatusFiles !in InstallHead(conf, name, prepared)
    ensures WriteFilelists !in InstallHead(conf, name, prepared)
  {
    var h := InstallHead(conf, name, prepared);
    assert h == [h[0]] + ([h[1]] + ([h[2]] + ([h[3]] + [h[4]])));
    ProgressesSingle(h[4]);
    ProgressesCons(h[3], [h[4]]);
    ProgressesCons(h[2], [h[3]] + [h[4]]);
    ProgressesCons(h[1], [h[2]] + ([h[3]] + [h[4]]));
    ProgressesCons(h[0], [h[1]] + ([h[2]] + ([h[3]] + [h[4]])));
  }

  /** A nonzero code from the install delegate or from configure-all is the
      code returned; the call succeeds exactly when the delegate returned 0 and
      every configure attempt returned 0; a failing delegate is followed by no
      configure call. */
  lemma InstallCode(conf: Conf, name: string, prepared: Option<string>, unpack: Delegate,
                    configure: nat -> int)
    requires ValidDb(unpack.db)
    ensures var tx := Install(conf, name, prepared, unpack, configure);
      && (unpack.code != 0 ==> tx.code == unpack.code && tx.db == unpack.db
                                && forall i :: 0 <= i < |tx.events| ==> !tx.events[i].ConfigurePkg?)
      && (unpack.code == 0 ==> FirstFailure(unpack.db, AllNames, configure, |unpack.db.pkgs|, tx.code))
      && (tx.code == 0 <==>
            (unpack.code == 0 &&
             forall k :: 0 <= k < |unpack.db.pkgs| && unpack.db.pkgs[k].stateStatus == Unpacked ==> configure(k) == 0))
  {
    ConfigureAllError(unpack.db, AllNames, configure);
  }

  /** Status files and file lists are written exactly when the call returns 0,
      and the progress values are 0, 50, 75, 100 cut short where the call
      stops. */
  lemma InstallEffects(conf: Conf, name: string, prepared: Option<string>, unpack: Delegate,
                       configure: nat -> int)
    requires ValidDb(unpack.db)
    ensures var tx := Install(conf, name, prepared, unpack, configure);
      && (WriteStatusFiles in tx.events <==> tx.code == 0)
      && (WriteFilelists in tx.events <==> tx.code == 0)
      && Progresses(tx.events) == (if unpack.code != 0 then [0, 50] else if tx.code != 0 then [0, 50, 75]
                                   else [0, 50, 75, 100])
      && NonDecreasing(Progresses(tx.events))
  {
    var head := InstallHead(conf, name, prepared);
    InstallHeadProgress(conf, name, prepared);
    if unpack.code == 0 {
      var c := ConfigureAll(unpack.db, AllNames, configure);
      ConfigureQuiet(unpack.db, configure);
      ConfigureSegment(head, c.events);
      if c.err == 0 {
        CommitTail(head + [Progress(75)] + c.events);
      }
    }
  }

  /** Progress 75 and a quiet run of configure calls after the head. */
  lemma ConfigureSegment(head: seq<Event>, ev: seq<Event>)
    requires Progresses(head) == [0, 50] && WriteStatusFiles !in head && WriteFilelists !in head
    requires Progresses(ev) == [] && WriteStatusFiles !in ev && WriteFilelists !in ev
    ensures Progresses(head + [Progress(75)] + ev) == [0, 50, 75]
    ensures WriteStatusFiles !in head + [Progress(75)] + ev
    ensures WriteFilelists !in head + [Progress(75)] + ev
  {
    ProgressesSingle(Progress(75));
    ProgressesAppend(head, [Progress(75)]);
    ProgressesAppend(head + [Progress(75)], ev);
  }

  /** The commit at the end of a successful install: both writes, then 100. */
  lemma CommitTail(pre: seq<Event>)
    ensures Progresses(pre + [WriteStatusFiles, WriteFilelists, Progress(100)]) == Progresses(pre) + [100]
    ensures WriteStatusFiles in pre + [WriteStatusFiles, WriteFilelists, Progress(100)]
    ensures WriteFilelists in pre + [WriteStatusFiles, WriteFilelists, Progress(100)]
  {
    var tail: seq<Event> := [WriteStatusFiles, WriteFilelists, Progress(100)];
    assert tail == [WriteStatusFiles] + ([WriteFilelists] + [Progress(100)]);
    ProgressesSingle(Progress(100));
    ProgressesCons(WriteFilelists, [Progress(100)]);
    ProgressesCons(WriteStatusFiles, [WriteFilelists] + [Progress(100)]);
    ProgressesAppend(pre, tail);
    assert (pre + tail)[|pre|] == WriteStatusFiles;
    assert (pre + tail)[|pre| + 1] == WriteFilelists;
  }

  /** After a successful install no record is left UNPACKED: every record the
      delegate left UNPACKED is now INSTALLED. */
  lemma InstallSettles(conf: Conf, name: string, prepared: Option<string>, unpack: Delegate,
                       configure: nat -> int, k: nat)
    requires ValidDb(unpack.db) && k < |unpack.db.pkgs|
    requires Install(conf, name, prepared, unpack, configure).code == 0
    ensures var tx := Install(conf, name, prepared, unpack, configure);
      && tx.db.pkgs[k].stateStatus != Unpacked
      && (unpack.db.pkgs[k].stateStatus == Unpacked ==> tx.db.pkgs[k].stateStatus == Installed)
  {
    ConfigureAllError(unpack.db, AllNames, configure);
    ConfigureUpToPkg(unpack.db, AllNames, configure, |unpack.db.pkgs|, k);
  }

  // ----------------------------------------------------------------- remove

  /** Progress 0, the pre-install check, progress 25. */
  function RemoveHead(): seq<Event> {
    [Progress(0), PreinstallCheck, Progress(25)]
  }

  /** opkg_remove_package: 1 when no installed record has that name or it is
      NOT_INSTALLED; otherwise the target is looked up again by the record's
      name, handed to the remove delegate, the status files and file lists are
      written, and 0 is returned whatever the delegate returned. */
  function Remove(conf: Conf, db: Db, name: string, byName: string -> Option<nat>,
                  byNameDest: (string, nat) -> Option<nat>, remover: Delegate): TxResult
    requires NameQuery(db, byName)
  {
    match byName(name)
    case None => TxResult(db, RemoveHead(), 1)
    case Some(k) =>
      var pkg := db.pkgs[k];
      if pkg.stateStatus == NotInstalled then TxResult(db, RemoveHead(), 1)
      else
        var target := ScopedLookup(conf, pkg.name, byName, byNameDest);
        TxResult(remover.db, RemoveHead() + [Progress(75), Progress(75), RemovePkg(target),
                                             WriteStatusFiles, WriteFilelists, Progress(100)], 0)
  }

  /** The guards: the call returns 1, leaves the records as they were and
      calls neither the remove delegate nor the status writers exactly when the
      lookup yields nothing or a NOT_INSTALLED record; otherwise it returns 0. */
  lemma RemoveGuard(conf: Conf, db: Db, name: string, byName: string -> Option<nat>,
                    byNameDest: (string, nat) -> Option<nat>, remover: Delegate)
    requires NameQuery(db, byName)
    ensures var tx := Remove(conf, db, name, byName, byNameDest, remover);
      var refused := byName(name).None? || db.pkgs[byName(name).value].stateStatus == NotInstalled;
      && (refused ==> tx.code == 1 && tx.db == db && tx.events == RemoveHead())
      && (!refused ==> tx.code == 0)
      && (forall t :: RemovePkg(t) in tx.events <==> !refused && t == ScopedLookup(conf, name, byName, byNameDest))
      && (WriteStatusFiles in tx.events <==> !refused)
  {
    var tx := Remove(conf, db, name, byName, byNameDest, remover);
    if byName(name).Some? {
      var k := byName(name).value;
      assert db.pkgs[k].name == name;
      if db.pkgs[k].stateStatus != NotInstalled {
        var ev := tx.events;
        assert ev[5] == RemovePkg(ScopedLookup(conf, name, byName, byNameDest));
        assert ev[6] == WriteStatusFiles;
      }
    }
  }

  /** Destination scoping: restricted to the default destination, the record
      removed is the one of that name fetched for it, and lies in it;
      unrestricted, it is the very record the guards examined. */
  lemma RemoveScoped(conf: Conf, db: Db, name: string, byName: string -> Option<nat>,
                     byNameDest: (string, nat) -> Option<nat>, remover: Delegate, t: Option<nat>)
    requires NameQuery(db, byName) && DestQuery(db, byNameDest)
    requires RemovePkg(t) in Remove(conf, db, name, byName, byNameDest, remover).events
    ensures conf.restrictToDefaultDest ==> t == byNameDest(name, conf.defaultDest)
    ensures conf.restrictToDefaultDest && t.Some? ==>
      t.value < |db.pkgs| && db.pkgs[t.value].name == name && db.pkgs[t.value].dest == conf.defaultDest
    ensures !conf.restrictToDefaultDest ==> t == byName(name)
  {
    RemoveGuard(conf, db, name, byName, byNameDest, remover);
  }

  /** The progress values: 0, 25 when refused; 0, 25, 75, 75, 100 otherwise. */
  lemma RemoveProgress(conf: Conf, db: Db, name: string, byName: string -> Option<nat>,
                       byNameDest: (string, nat) -> Option<nat>, remover: Delegate)
    requires NameQuery(db, byName)
    ensures var tx := Remove(conf, db, name, byName, byNameDest, remover);
      && Progresses(tx.events) == (if tx.code == 1 then [0, 25] else [0, 25, 75, 75, 100])
      && NonDecreasing(Progresses(tx.events))
  {
    var h := RemoveHead();
    assert h == [h[0]] + ([h[1]] + [h[2]]);
    ProgressesSingle(h[2]);
    ProgressesCons(h[1], [h[2]]);
    ProgressesCons(h[0], [h[1]] + [h[2]]);
    var tx := Remove(conf, db, name, byName, byNameDest, remover);
    if tx.code != 1 {
      var t := tx.events[5].target;
      RemoveTailProgress(t);
      ProgressesAppend(h, [Progress(75), Progress(75), RemovePkg(t), WriteStatusFiles, WriteFilelists, Progress(100)]);
    }
  }

  lemma RemoveTailProgress(t: Option<nat>)
    ensures Progresses([Progress(75), Progress(75), RemovePkg(t), WriteStatusFiles, WriteFilelists, Progress(100)])
            == [75, 75, 100]
  {
    var tail: seq<Event> := [Progress(75), Progress(75), RemovePkg(t), WriteStatusFiles, WriteFilelists, Progress(100)];
    assert tail == [tail[0]] + ([tail[1]] + ([tail[2]] + ([tail[3]] + ([tail[4]] + [tail[5]]))));
    ProgressesSingle(tail[5]);
    ProgressesCons(tail[4], [tail[5]]);
    ProgressesCons(tail[3], [tail[4]] + [tail[5]]);
    ProgressesCons(tail[2], [tail[3]] + ([tail[4]] + [tail[5]]));
    ProgressesCons(tail[1], [tail[2]] + ([tail[3]] + ([tail[4]] + [tail[5]])));
    ProgressesCons(tail[0], [tail[1]] + ([tail[2]] + ([tail[3]] + ([tail[4]] + [tail[5]]))));
  }

  // ---------------------------------------------------------------- upgrade

  /** opkg_upgrade_package: 1 when the lookup yields nothing; otherwise
      progress 25, the upgrade delegate, progress 75, configure-all, progress
      100 and 0, whatever the delegate and configure-all returned. */
  function Upgrade(conf: Conf, db: Db, name: string, byName: string -> Option<nat>,
                   byNameDest: (string, nat) -> Option<nat>, up: Delegate, configure: nat -> int): TxResult
    requires ValidDb(up.db)
  {
    var head := [Progress(0), PreinstallCheck];
    match ScopedLookup(conf, name, byName, byNameDest)
    case None => TxResult(db, head, 1)
    case Some(k) =>
      var c := ConfigureAll(up.db, AllNames, configure);
      TxResult(c.db, head + [Progress(25), UpgradePkg(k), Progress(75)] + c.events + [Progress(100)], 0)
  }

  /** The call returns 1, with the records untouched and no upgrade call,
      exactly when the lookup finds nothing; otherwise it returns 0 and upgrades
      the record found, which under the restriction has the default
      destination. It never writes the status files. */
  lemma UpgradeOutcome(conf: Conf, db: Db, name: string, byName: string -> Option<nat>,
                       byNameDest: (string, nat) -> Option<nat>, up: Delegate, configure: nat -> int)
    requires ValidDb(up.db) && NameQuery(db, byName) && DestQuery(db, byNameDest)
    ensures var tx := Upgrade(conf, db, name, byName, byNameDest, up, configure);
      var found := ScopedLookup(conf, name, byName, byNameDest);
      && (tx.code == 1 <==> found.None?)
      && (tx.code == 0 <==> found.Some?)
      && (found.None? ==> tx.db == db && tx.events == [Progress(0), PreinstallCheck])
      && (found.Some? ==> UpgradePkg(found.value) in tx.events && db.pkgs[found.value].name == name)
      && (found.Some? && conf.restrictToDefaultDest ==> db.pkgs[found.value].dest == conf.defaultDest)
      && WriteStatusFiles !in tx.events
  {
    var tx := Upgrade(conf, db, name, byName, byNameDest, up, configure);
    var found := ScopedLookup(conf, name, byName, byNameDest);
    if found.Some? {
      var c := ConfigureAll(up.db, AllNames, configure);
      ConfigureQuiet(up.db, configure);
      var mid: seq<Event> := [Progress(25), UpgradePkg(found.value), Progress(75)];
      assert tx.events == [Progress(0), PreinstallCheck] + mid + c.events + [Progress(100)];
      assert mid[1] == UpgradePkg(found.value);
    }
  }

  /** The progress values: 0 when the lookup finds nothing; otherwise 0, 25,
      75, 100. Once a record is found, the upgrade call comes before every
      configure call, and the records after the call are those configure-all
      leaves when it runs on the records the upgrade step left. */
  lemma UpgradeProgress(conf: Conf, db: Db, name: string, byName: string -> Option<nat>,
                        byNameDest: (string, nat) -> Option<nat>, up: Delegate, configure: nat -> int)
    requires ValidDb(up.db)
    ensures var tx := Upgrade(conf, db, name, byName, byNameDest, up, configure);
      var found := ScopedLookup(conf, name, byName, byNameDest);
      && Progresses(tx.events) == (if found.None? then [0] else [0, 25, 75, 100])
      && NonDecreasing(Progresses(tx.events))
      && (found.Some? ==>
            && tx.db == ConfigureAll(up.db, AllNames, configure).db
            && tx.events[3] == UpgradePkg(found.value)
            && forall i :: 0 <= i < |tx.events| && tx.events[i].ConfigurePkg? ==> 5 <= i)
  {
    BatchHeadProgress();
    var found := ScopedLookup(conf, name, byName, byNameDest);
    if found.Some? {
      var c := ConfigureAll(up.db, AllNames, configure);
      ConfigureQuiet(up.db, configure);
      UpgradeTrail(found.value, c.events);
      assert [Progress(0), PreinstallCheck] + [Progress(25), UpgradePkg(found.value), Progress(75)] == UpgradePrefix(found.value);
    }
  }

  /** The events of a found upgrade before its configure segment. */
  function UpgradePrefix(k: nat): seq<Event> {
    [Progress(0), PreinstallCheck, Progress(25), UpgradePkg(k), Progress(75)]
  }

  lemma UpgradePrefixProgress(k: nat)
    ensures Progresses(UpgradePrefix(k)) == [0, 25, 75]
  {
    var h := UpgradePrefix(k);
    assert h == [h[0]] + ([h[1]] + ([h[2]] + ([h[3]] + [h[4]])));
    ProgressesSingle(h[4]);
    ProgressesCons(h[3], [h[4]]);
    ProgressesCons(h[2], [h[3]] + [h[4]]);
    ProgressesCons(h[1], [h[2]] + ([h[3]] + [h[4]]));
    ProgressesCons(h[0], [h[1]] + ([h[2]] + ([h[3]] + [h[4]])));
  }

  /** The events once a record is found, around a configure segment that
      reports nothing. */
  lemma UpgradeTrail(k: nat, ev: seq<Event>)
    requires Progresses(ev) == []
    ensures var t := UpgradePrefix(k) + ev + [Progress(100)];
      && Progresses(t) == [0, 25, 75, 100]
      && t[3] == UpgradePkg(k)
      && forall i :: 0 <= i < 5 ==> !t[i].ConfigurePkg?
  {
    UpgradePrefixProgress(k);
    ProgressesSingle(Progress(100));
    ProgressesAppend(UpgradePrefix(k), ev);
    ProgressesAppend(UpgradePrefix(k) + ev, [Progress(100)]);
    var t := UpgradePrefix(k) + ev + [Progress(100)];
    forall i | 0 <= i < 5 ensures !t[i].ConfigurePkg? {
      assert t[i] == UpgradePrefix(k)[i];
    }
  }

  /** Progress 0 and the pre-install check, which opens upgrade and
      upgrade-all, report 0 alone. */
  lemma BatchHeadProgress()
    ensures Progresses([Progress(0), PreinstallCheck]) == [0]
  {
    assert [Progress(0), PreinstallCheck] == [Progress(0)] + [PreinstallCheck];
    ProgressesCons(Progress(0), [PreinstallCheck]);
    ProgressesSingle(PreinstallCheck);
  }

  // ------------------------------------------------------------ upgrade all

  datatype LoopState = LoopState(err: int, events: seq<Event>)

  /** The first `n` rounds of opkg_upgrade_all's loop: the codes summed, and per
      round the upgrade call then progress 100*i/len. */
  function UpgradeLoop(installed: seq<nat>, ups: seq<Delegate>, n: nat): (s: LoopState)
    requires |ups| == |installed| && n <= |installed|
    ensures |s.events| == 2 * n
  {
    if n == 0 then LoopState(0, [])
    else
      var prev := UpgradeLoop(installed, ups, n - 1);
      LoopState(prev.err + ups[n - 1].code,
                prev.events + [UpgradePkg(installed[n - 1]), Progress(100 * (n - 1) / |installed|)])
  }

  /** The records after the last upgrade of the batch. */
  function AfterUpgrades(db: Db, ups: seq<Delegate>): Db {
    if ups == [] then db else ups[|ups| - 1].db
  }

  predicate AllValid(ups: seq<Delegate>) {
    forall i :: 0 <= i < |ups| ==> ValidDb(ups[i].db)
  }

  /** opkg_upgrade_all: every installed record is upgraded in turn; if the sum
      of the codes is nonzero the call returns 1 without configuring; otherwise
      configure-all runs, and its failure also gives 1; otherwise progress 100
      and 0. */
  function UpgradeAll(db: Db, installed: seq<nat>, ups: seq<Delegate>, configure: nat -> int): TxResult
    requires |ups| == |installed| && ValidDb(db) && AllValid(ups)
  {
    var loop := UpgradeLoop(installed, ups, |installed|);
    var after := AfterUpgrades(db, ups);
    var head := [Progress(0), PreinstallCheck];
    if loop.err != 0 then TxResult(after, head + loop.events, 1)
    else
      var c := ConfigureAll(after, AllNames, configure);
      if c.err != 0 then TxResult(c.db, head + loop.events + c.events, 1)
      else TxResult(c.db, head + loop.events + c.events + [Progress(100)], 0)
  }

  /** The sum of the first `n` codes. */
  function CodeSum(ups: seq<Delegate>, n: nat): int
    requires n <= |ups|
  {
    if n == 0 then 0 else CodeSum(ups, n - 1) + ups[n - 1].code
  }

  /** Round i makes the upgrade call for installed[i] and then reports
      100*i/len, for every i, whatever the earlier rounds returned; the error
      is the sum of the codes. */
  lemma {:induction false} UpgradeLoopRounds(installed: seq<nat>, ups: seq<Delegate>, n: nat)
    requires |ups| == |installed| && n <= |installed|
    ensures var s := UpgradeLoop(installed, ups, n);
      && s.err == CodeSum(ups, n)
      && forall i :: 0 <= i < n ==>
           s.events[2 * i] == UpgradePkg(installed[i]) && s.events[2 * i + 1] == Progress(100 * i / |installed|)
  {
    if n > 0 {
      UpgradeLoopRounds(installed, ups, n - 1);
      var prev := UpgradeLoop(installed, ups, n - 1);
      var s := UpgradeLoop(installed, ups, n);
      forall i | 0 <= i < n
        ensures s.events[2 * i] == UpgradePkg(installed[i]) && s.events[2 * i + 1] == Progress(100 * i / |installed|)
      {
        if i < n - 1 {
          assert s.events[2 * i] == prev.events[2 * i];
          assert s.events[2 * i + 1] == prev.events[2 * i + 1];
        }
      }
    }
  }

  /** With codes that are never negative, one failing upgrade makes the sum
      nonzero. */
  lemma {:induction false} CodeSumPositive(ups: seq<Delegate>, n: nat, j: nat)
    requires n <= |ups| && j < n && ups[j].code > 0
    requires forall i :: 0 <= i < n ==> ups[i].code >= 0
    ensures CodeSum(ups, n) > 0
  {
    if j < n - 1 {
      CodeSumPositive(ups, n - 1, j);
    } else {
      CodeSumNonneg(ups, n - 1);
    }
  }

  lemma {:induction false} CodeSumNonneg(ups: seq<Delegate>, n: nat)
    requires n <= |ups| && forall i :: 0 <= i < n ==> ups[i].code >= 0
    ensures CodeSum(ups, n) >= 0
  {
    if n > 0 {
      CodeSumNonneg(ups, n - 1);
    }
  }

  /** If the codes are never negative and one upgrade failed, the call returns
      1 and no configure call is made; the call returns 0 or 1, and 0 only when
      the codes sum to 0 and configure-all succeeded. */
  lemma UpgradeAllOutcome(db: Db, installed: seq<nat>, ups: seq<Delegate>, configure: nat -> int, j: nat)
    requires |ups| == |installed| && ValidDb(db) && AllValid(ups)
    ensures var tx := UpgradeAll(db, installed, ups, configure);
      && (tx.code == 0 || tx.code == 1)
      && (tx.code == 0 <==>
            (CodeSum(ups, |ups|) == 0 && ConfigureAll(AfterUpgrades(db, ups), AllNames, configure).err == 0))
      && (j < |ups| && ups[j].code > 0 && (forall i :: 0 <= i < |ups| ==> ups[i].code >= 0) ==>
            tx.code == 1 && forall i :: 0 <= i < |tx.events| ==> !tx.events[i].ConfigurePkg?)
  {
    UpgradeLoopRounds(installed, ups, |installed|);
    if j < |ups| && ups[j].code > 0 && (forall i :: 0 <= i < |ups| ==> ups[i].code >= 0) {
      CodeSumPositive(ups, |ups|, j);
      var tx := UpgradeAll(db, installed, ups, configure);
      var loop := UpgradeLoop(installed, ups, |installed|);
      assert loop.err != 0;
      assert tx.events == [Progress(0), PreinstallCheck] + loop.events;
      forall i | 0 <= i < |tx.events| ensures !tx.events[i].ConfigurePkg? {
        if i >= 2 {
          var r := (i - 2) / 2;
          assert tx.events[i] == loop.events[i - 2];
          if i - 2 == 2 * r {
            assert loop.events[2 * r] == UpgradePkg(installed[r]);
          } else {
            assert loop.events[2 * r + 1] == Progress(100 * r / |installed|);
          }
        }
      }
    }
  }

  /** The progress values of the loop: 100*i/len for round i, each in [0, 100)
      and never decreasing. */
  lemma UpgradeLoopProgress(installed: seq<nat>, ups: seq<Delegate>)
    requires |ups| == |installed|
    ensures var vs := Progresses(UpgradeLoop(installed, ups, |installed|).events);
      && |vs| == |installed|
      && (forall i :: 0 <= i < |vs| ==> vs[i] == 100 * i / |installed|)
      && NonDecreasing(vs) && Within(vs, 0, 99)
  {
    LoopProgressUpTo(installed, ups, |installed|);
    var vs := Progresses(UpgradeLoop(installed, ups, |installed|).events);
    forall i | 0 <= i < |vs| ensures 0 <= vs[i] <= 99 {
      RoundPercentBelow(i, |installed|);
    }
    forall i, j | 0 <= i < j < |vs| ensures vs[i] <= vs[j] {
      Arith.DivMono(100 * i, 100 * j, |installed|);
    }
  }

  /** The progress values of a whole run: 0, then 100*i/len after round i,
      then 100 only when the call returns 0; they never decrease and stay in
      [0, 100]. */
  lemma UpgradeAllProgress(db: Db, installed: seq<nat>, ups: seq<Delegate>, configure: nat -> int)
    requires |ups| == |installed| && ValidDb(db) && AllValid(ups)
    ensures var tx := UpgradeAll(db, installed, ups, configure);
      var vs := Progresses(tx.events);
      var n := |installed|;
      && |vs| == n + 1 + (if tx.code == 0 then 1 else 0)
      && vs[0] == 0
      && (forall i :: 0 <= i < n ==> vs[i + 1] == 100 * i / n)
      && (tx.code == 0 ==> vs[n + 1] == 100)
      && NonDecreasing(vs) && Within(vs, 0, 100)
  {
    var tx := UpgradeAll(db, installed, ups, configure);
    var loop := UpgradeLoop(installed, ups, |installed|);
    var head: seq<Event> := [Progress(0), PreinstallCheck];
    UpgradeLoopProgress(installed, ups);
    var lv := Progresses(loop.events);
    BatchHeadProgress();
    ProgressesAppend(head, loop.events);
    var tail: seq<int> := if tx.code == 0 then [100] else [];
    if loop.err == 0 {
      var after := AfterUpgrades(db, ups);
      AfterUpgradesValid(db, ups);
      var c := ConfigureAll(after, AllNames, configure);
      ConfigureQuiet(after, configure);
      ProgressesAppend(head + loop.events, c.events);
      if c.err == 0 {
        ProgressesSingle(Progress(100));
        ProgressesAppend(head + loop.events + c.events, [Progress(100)]);
      }
    }
    assert Progresses(tx.events) == [0] + lv + tail;
    FramedRun(lv, tail);
  }

  /** A run of loop values in [0, 99] between an opening 0 and an optional
      closing 100 never decreases and stays in [0, 100]. */
  lemma FramedRun(lv: seq<int>, tail: seq<int>)
    requires NonDecreasing(lv) && Within(lv, 0, 99) && (tail == [] || tail == [100])
    ensures NonDecreasing([0] + lv + tail) && Within([0] + lv + tail, 0, 100)
  {
    NonDecreasingConcat([0], lv, 0);
    NonDecreasingConcat([0] + lv, tail, 99);
  }

  lemma AfterUpgradesValid(db: Db, ups: seq<Delegate>)
    requires ValidDb(db) && AllValid(ups)
    ensures ValidDb(AfterUpgrades(db, ups))
  {
  }

  /** Every upgrade call comes before every configure call, and configure-all
      runs, when the codes sum to 0, on the records the last upgrade left (the
      records as they were when nothing is installed); when the sum is nonzero
      the records are those the last upgrade left. Neither the status files nor
      the file lists are ever written. */
  lemma UpgradeAllRecords(db: Db, installed: seq<nat>, ups: seq<Delegate>, configure: nat -> int)
    requires |ups| == |installed| && ValidDb(db) && AllValid(ups)
    ensures var tx := UpgradeAll(db, installed, ups, configure);
      var after := if |ups| == 0 then db else ups[|ups| - 1].db;
      && tx.db == (if CodeSum(ups, |ups|) != 0 then after else ConfigureAll(after, AllNames, configure).db)
      && (forall r :: 0 <= r < |installed| ==> tx.events[2 + 2 * r] == UpgradePkg(installed[r]))
      && (forall i :: 0 <= i < |tx.events| && tx.events[i].ConfigurePkg? ==> 2 + 2 * |installed| <= i)
      && WriteStatusFiles !in tx.events && WriteFilelists !in tx.events
  {
    var tx := UpgradeAll(db, installed, ups, configure);
    var loop := UpgradeLoop(installed, ups, |installed|);
    var head: seq<Event> := [Progress(0), PreinstallCheck];
    UpgradeLoopRounds(installed, ups, |installed|);
    assert tx.events[..2 + 2 * |installed|] == head + loop.events;
    forall r | 0 <= r < |installed| ensures tx.events[2 + 2 * r] == UpgradePkg(installed[r]) {
      assert tx.events[2 + 2 * r] == loop.events[2 * r];
    }
    forall i | 0 <= i < 2 + 2 * |installed| ensures !tx.events[i].ConfigurePkg? {
      if i >= 2 {
        var r := (i - 2) / 2;
        assert tx.events[i] == loop.events[i - 2];
        if i - 2 == 2 * r {
          assert loop.events[2 * r] == UpgradePkg(installed[r]);
        } else {
          assert loop.events[2 * r + 1] == Progress(100 * r / |installed|);
        }
      }
    }
    UpgradeAllWritesNothing(db, installed, ups, configure);
  }

  lemma UpgradeAllWritesNothing(db: Db, installed: seq<nat>, ups: seq<Delegate>, configure: nat -> int)
    requires |ups| == |installed| && ValidDb(db) && AllValid(ups)
    ensures var tx := UpgradeAll(db, installed, ups, configure);
      WriteStatusFiles !in tx.events && WriteFilelists !in tx.events
  {
    LoopWritesNothing(installed, ups, |installed|);
    if UpgradeLoop(installed, ups, |installed|).err == 0 {
      AfterUpgradesValid(db, ups);
      ConfigureQuiet(AfterUpgrades(db, ups), configure);
    }
  }

  /** The rounds of the loop write neither the status files nor the file
      lists. */
  lemma {:induction false} LoopWritesNothing(installed: seq<nat>, ups: seq<Delegate>, n: nat)
    requires |ups| == |installed| && n <= |installed|
    ensures WriteStatusFiles !in UpgradeLoop(installed, ups, n).events
    ensures WriteFilelists !in UpgradeLoop(installed, ups, n).events
  {
    if n > 0 {
      LoopWritesNothing(installed, ups, n - 1);
    }
  }

  lemma RoundPercentBelow(i: nat, len: nat)
    requires i < len
    ensures 0 <= 100 * i / len <= 99
  {
    Arith.DivLe(100 * i, len, 99);
  }

  lemma {:induction false} LoopProgressUpTo(installed: seq<nat>, ups: seq<Delegate>, n: nat)
    requires |ups| == |installed| && n <= |installed|
    ensures var vs := Progresses(UpgradeLoop(installed, ups, n).events);
      |vs| == n && forall i :: 0 <= i < n ==> vs[i] == 100 * i / |installed|
  {
    if n > 0 {
      LoopProgressUpTo(installed, ups, n - 1);
      var prev := UpgradeLoop(installed, ups, n - 1);
      var round: seq<Event> := [UpgradePkg(installed[n - 1]), Progress(100 * (n - 1) / |installed|)];
      ProgressesAppend(prev.events, round);
      ProgressesSingle(round[1]);
      ProgressesCons(round[0], [round[1]]);
      assert round == [round[0]] + [round[1]];
    }
  }

  /** The codes are summed, not tested one by one: an upgrade returning 1 and
      another returning -1 cancel, and the batch reports success. */
  lemma UpgradeAllCodesCancel()
    ensures var ups := [Delegate(1, Db([], [])), Delegate(-1, Db([], []))];
      UpgradeAll(Db([], []), [0, 1], ups, (k: nat) => 0).code == 0
  {
    var ups := [Delegate(1, Db([], [])), Delegate(-1, Db([], []))];
    assert CodeSum(ups, 2) == 0;
    UpgradeLoopRounds([0, 1], ups, 2);
  }
}
