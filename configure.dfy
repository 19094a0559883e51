/** The batch configure pass (opkg_configure_packages) as a specification:
    `ConfigureUpTo` is the state after the first `n` records of the vector have
    been visited, and the lemmas below state what the whole pass does to each
    record, to each abstract record, to the return code and to the calls made. */
module Configure {
  import opened Packages
  import opened Trace

  /** The optional name filter. `Matching` stands for a glob pattern together
      with the verdict of fnmatch on it: `matches(name)` holds exactly when
      fnmatch(pattern, name, 0) returns 0. */
  datatype Filter = AllNames | Matching(pattern: string, matches: string -> bool)

  predicate Selected(filter: Filter, p: Pkg) {
    filter.AllNames? || filter.matches(p.name)
  }

  /** The pass calls the configure collaborator for exactly these records. */
  predicate Attempted(filter: Filter, p: Pkg) {
    Selected(filter, p) && p.stateStatus == Unpacked
  }

  /** Record `k` is attempted and its configure step returns 0. */
  predicate Succeeds(db: Db, filter: Filter, configure: nat -> int, k: nat)
    requires k < |db.pkgs|
  {
    Attempted(filter, db.pkgs[k]) && configure(k) == 0
  }

  /** A record after a successful configure step. */
  function Configured(p: Pkg): Pkg {
    p.(stateStatus := Installed, stateFlag := p.stateFlag & !SF_PREFER)
  }

  datatype Outcome = Outcome(db: Db, err: int, events: seq<Event>)

  /** The visit of record `i`: an attempted record whose configure step
      returns 0 becomes configured and its parent INSTALLED; a failing one
      records its code unless a code was recorded before. */
  function Visit(prev: Outcome, filter: Filter, configure: nat -> int, i: nat): (r: Outcome)
    requires ValidDb(prev.db) && i < |prev.db.pkgs|
    ensures ValidDb(r.db) && |r.db.pkgs| == |prev.db.pkgs| && |r.db.abstracts| == |prev.db.abstracts|
  {
    var p := prev.db.pkgs[i];
    if !Attempted(filter, p) then prev
    else if configure(i) == 0 then
      var parent := prev.db.abstracts[p.parent];
      Outcome(Db(prev.db.pkgs[i := Configured(p)],
                 prev.db.abstracts[p.parent := parent.(stateStatus := Installed)]),
              prev.err, prev.events + [ConfigurePkg(i)])
    else
      Outcome(prev.db, if prev.err == 0 then configure(i) else prev.err, prev.events + [ConfigurePkg(i)])
  }

  /** The state after visiting records 0 .. n-1; `configure(i)` is what the
      configure collaborator returns for record `i`. */
  function ConfigureUpTo(db: Db, filter: Filter, configure: nat -> int, n: nat): (r: Outcome)
    requires ValidDb(db) && n <= |db.pkgs|
    ensures ValidDb(r.db) && |r.db.pkgs| == |db.pkgs| && |r.db.abstracts| == |db.abstracts|
    decreases n
  {
    if n == 0 then Outcome(db, 0, [])
    else Visit(ConfigureUpTo(db, filter, configure, n - 1), filter, configure, n - 1)
  }

  function ConfigureAll(db: Db, filter: Filter, configure: nat -> int): Outcome
    requires ValidDb(db)
  {
    ConfigureUpTo(db, filter, configure, |db.pkgs|)
  }

  /** The first `n` records have been visited and the code returned is 0 when
      every attempted one of them configured, else the code of the first one
      that failed. */
  ghost predicate FirstFailure(db: Db, filter: Filter, configure: nat -> int, n: nat, err: int)
    requires n <= |db.pkgs|
  {
    && (err == 0 <==> forall k :: 0 <= k < n && Attempted(filter, db.pkgs[k]) ==> configure(k) == 0)
    && (err != 0 ==>
          exists k :: 0 <= k < n && Attempted(filter, db.pkgs[k]) && configure(k) == err &&
            forall j :: 0 <= j < k && Attempted(filter, db.pkgs[j]) ==> configure(j) == 0)
  }

  /** Record `k` is changed only by its own successful configure step. */
  lemma {:induction false} ConfigureUpToPkg(db: Db, filter: Filter, configure: nat -> int, n: nat, k: nat)
    requires ValidDb(db) && n <= |db.pkgs| && k < |db.pkgs|
    ensures ConfigureUpTo(db, filter, configure, n).db.pkgs[k] ==
      if k < n && Succeeds(db, filter, configure, k) then Configured(db.pkgs[k]) else db.pkgs[k]
  {
    if n > 0 {
      var prev := ConfigureUpTo(db, filter, configure, n - 1);
      var r := ConfigureUpTo(db, filter, configure, n);
      if k != n - 1 {
        ConfigureUpToPkg(db, filter, configure, n - 1, k);
        assert r.db.pkgs[k] == prev.db.pkgs[k];
      } else {
        ConfigureUpToPkg(db, filter, configure, n - 1, n - 1);
        assert prev.db.pkgs[k] == db.pkgs[k];
      }
    }
  }

  /** Some record among the first `n` that points at abstract record `j`
      configures successfully. */
  ghost predicate Propagated(db: Db, filter: Filter, configure: nat -> int, n: nat, j: nat)
    requires n <= |db.pkgs|
  {
    exists k :: 0 <= k < n && Succeeds(db, filter, configure, k) && db.pkgs[k].parent == j
  }

  lemma PropagatedStep(db: Db, filter: Filter, configure: nat -> int, n: nat, j: nat)
    requires 0 < n <= |db.pkgs|
    ensures Propagated(db, filter, configure, n, j) <==>
      Propagated(db, filter, configure, n - 1, j) ||
      (Succeeds(db, filter, configure, n - 1) && db.pkgs[n - 1].parent == j)
  {
    if Propagated(db, filter, configure, n, j) && !Propagated(db, filter, configure, n - 1, j) {
      var k :| 0 <= k < n && Succeeds(db, filter, configure, k) && db.pkgs[k].parent == j;
      assert k == n - 1;
    }
    if Succeeds(db, filter, configure, n - 1) && db.pkgs[n - 1].parent == j {
      assert 0 <= n - 1 < n;
    }
  }

  /** One step of the pass, read off the records as they were before it. */
  lemma ConfigureUpToStep(db: Db, filter: Filter, configure: nat -> int, n: nat)
    requires ValidDb(db) && 0 < n <= |db.pkgs|
    ensures var prev := ConfigureUpTo(db, filter, configure, n - 1);
      var r := ConfigureUpTo(db, filter, configure, n);
      var p := db.pkgs[n - 1];
      && r.db.abstracts == (if Succeeds(db, filter, configure, n - 1)
                            then prev.db.abstracts[p.parent := prev.db.abstracts[p.parent].(stateStatus := Installed)]
                            else prev.db.abstracts)
      && r.err == (if Attempted(filter, p) && configure(n - 1) != 0 && prev.err == 0
                   then configure(n - 1) else prev.err)
      && r.events == prev.events + (if Attempted(filter, p) then [ConfigurePkg(n - 1)] else [])
  {
    ConfigureUpToPkg(db, filter, configure, n - 1, n - 1);
  }

  /** An abstract record becomes INSTALLED exactly when some record pointing at
      it configured successfully, and is otherwise untouched. */
  lemma {:induction false} ConfigureUpToAbstract(db: Db, filter: Filter, configure: nat -> int, n: nat, j: nat)
    requires ValidDb(db) && n <= |db.pkgs| && j < |db.abstracts|
    ensures ConfigureUpTo(db, filter, configure, n).db.abstracts[j] ==
      if Propagated(db, filter, configure, n, j)
      then db.abstracts[j].(stateStatus := Installed)
      else db.abstracts[j]
  {
    if n > 0 {
      ConfigureUpToAbstract(db, filter, configure, n - 1, j);
      PropagatedStep(db, filter, configure, n, j);
      ConfigureUpToStep(db, filter, configure, n);
    }
  }

  /** The first-failure property carried over one more record. */
  lemma FirstFailureStep(db: Db, filter: Filter, configure: nat -> int, n: nat, prevErr: int, err: int)
    requires 0 < n <= |db.pkgs| && FirstFailure(db, filter, configure, n - 1, prevErr)
    requires err == if Attempted(filter, db.pkgs[n - 1]) && configure(n - 1) != 0 && prevErr == 0
                    then configure(n - 1) else prevErr
    ensures FirstFailure(db, filter, configure, n, err)
  {
    if err != 0 && prevErr == 0 {
      assert forall j :: 0 <= j < n - 1 && Attempted(filter, db.pkgs[j]) ==> configure(j) == 0;
      assert 0 <= n - 1 < n && Attempted(filter, db.pkgs[n - 1]) && configure(n - 1) == err;
    } else if err != 0 {
      var k :| 0 <= k < n - 1 && Attempted(filter, db.pkgs[k]) && configure(k) == prevErr &&
        forall j :: 0 <= j < k && Attempted(filter, db.pkgs[j]) ==> configure(j) == 0;
      assert 0 <= k < n;
    }
  }

  /** The code is 0 or the first failure code, in vector order. */
  lemma {:induction false} ConfigureUpToErr(db: Db, filter: Filter, configure: nat -> int, n: nat)
    requires ValidDb(db) && n <= |db.pkgs|
    ensures FirstFailure(db, filter, configure, n, ConfigureUpTo(db, filter, configure, n).err)
  {
    if n > 0 {
      ConfigureUpToErr(db, filter, configure, n - 1);
      ConfigureUpToStep(db, filter, configure, n);
      FirstFailureStep(db, filter, configure, n, ConfigureUpTo(db, filter, configure, n - 1).err,
                       ConfigureUpTo(db, filter, configure, n).err);
    }
  }

  /** The calls the pass makes, read off the records as they were before it:
      one ConfigurePkg(k) for each attempted k below `n`, in vector order. */
  function Calls(db: Db, filter: Filter, n: nat): seq<Event>
    requires n <= |db.pkgs|
  {
    if n == 0 then []
    else Calls(db, filter, n - 1) + (if Attempted(filter, db.pkgs[n - 1]) then [ConfigurePkg(n - 1)] else [])
  }

  /** The configure collaborator is called once for each attempted record, in
      vector order, and for no other. */
  lemma {:induction false} ConfigureUpToCalls(db: Db, filter: Filter, configure: nat -> int, n: nat)
    requires ValidDb(db) && n <= |db.pkgs|
    ensures ConfigureUpTo(db, filter, configure, n).events == Calls(db, filter, n)
  {
    if n > 0 {
      ConfigureUpToCalls(db, filter, configure, n - 1);
      ConfigureUpToStep(db, filter, configure, n);
    }
  }

  /** Every call is a configure call on an attempted record below `n`, and every
      attempted record below `n` is called. */
  lemma {:induction false} CallsAttempted(db: Db, filter: Filter, n: nat)
    requires n <= |db.pkgs|
    ensures forall i :: 0 <= i < |Calls(db, filter, n)| ==>
      Calls(db, filter, n)[i].ConfigurePkg? && Calls(db, filter, n)[i].index < n &&
      Attempted(filter, db.pkgs[Calls(db, filter, n)[i].index])
    ensures forall k :: 0 <= k < n && Attempted(filter, db.pkgs[k]) ==> ConfigurePkg(k) in Calls(db, filter, n)
  {
    if n > 0 {
      CallsAttempted(db, filter, n - 1);
    }
  }

  /** The pass makes configure calls and nothing else. */
  lemma ConfigureAllCallsOnly(db: Db, filter: Filter, configure: nat -> int)
    requires ValidDb(db)
    ensures var ev := ConfigureAll(db, filter, configure).events;
      forall i :: 0 <= i < |ev| ==> ev[i].ConfigurePkg?
  {
    ConfigureUpToCalls(db, filter, configure, |db.pkgs|);
    CallsAttempted(db, filter, |db.pkgs|);
  }

  /** With nothing to attempt, the pass makes no call. */
  lemma {:induction false} CallsNone(db: Db, filter: Filter, n: nat)
    requires n <= |db.pkgs|
    requires forall k :: 0 <= k < n ==> !Attempted(filter, db.pkgs[k])
    ensures Calls(db, filter, n) == []
  {
    if n > 0 {
      CallsNone(db, filter, n - 1);
    }
  }

  /** A record that was UNPACKED, passed the filter and configured ends
      INSTALLED with SF_PREFER cleared, every other flag bit and field as it was,
      and its parent INSTALLED. */
  lemma ConfigureAllInstalls(db: Db, filter: Filter, configure: nat -> int, k: nat)
    requires ValidDb(db) && k < |db.pkgs|
    requires db.pkgs[k].stateStatus == Unpacked && Selected(filter, db.pkgs[k]) && configure(k) == 0
    ensures var r := ConfigureAll(db, filter, configure).db;
      && r.pkgs[k].stateStatus == Installed
      && r.pkgs[k].stateFlag & SF_PREFER == 0
      && r.pkgs[k].stateFlag & !SF_PREFER == db.pkgs[k].stateFlag & !SF_PREFER
      && r.pkgs[k].(stateStatus := Unpacked, stateFlag := db.pkgs[k].stateFlag) == db.pkgs[k]
      && r.abstracts[db.pkgs[k].parent].stateStatus == Installed
  {
    ConfigureUpToPkg(db, filter, configure, |db.pkgs|, k);
    ConfigureUpToAbstract(db, filter, configure, |db.pkgs|, db.pkgs[k].parent);
    assert Succeeds(db, filter, configure, k);
    assert Propagated(db, filter, configure, |db.pkgs|, db.pkgs[k].parent);
  }

  /** A record that was not UNPACKED, failed the filter, or whose configure
      step failed is left exactly as it was (a failed one stays UNPACKED). */
  lemma ConfigureAllLeavesOthers(db: Db, filter: Filter, configure: nat -> int, k: nat)
    requires ValidDb(db) && k < |db.pkgs|
    requires db.pkgs[k].stateStatus != Unpacked || !Selected(filter, db.pkgs[k]) || configure(k) != 0
    ensures ConfigureAll(db, filter, configure).db.pkgs[k] == db.pkgs[k]
  {
    ConfigureUpToPkg(db, filter, configure, |db.pkgs|, k);
  }

  /** The pass returns 0 iff every attempted configure returned 0, and otherwise
      the first nonzero code in vector order. */
  lemma ConfigureAllError(db: Db, filter: Filter, configure: nat -> int)
    requires ValidDb(db)
    ensures FirstFailure(db, filter, configure, |db.pkgs|, ConfigureAll(db, filter, configure).err)
  {
    ConfigureUpToErr(db, filter, configure, |db.pkgs|);
  }

  /** After a pass that returned 0, running it again with the same filter
      changes nothing, calls nothing and returns 0, whatever the configure step
      would answer the second time (`again`). */
  lemma ConfigureAllRerun(db: Db, filter: Filter, configure: nat -> int, again: nat -> int)
    requires ValidDb(db) && ConfigureAll(db, filter, configure).err == 0
    ensures var r := ConfigureAll(db, filter, configure).db;
      ConfigureAll(r, filter, again) == Outcome(r, 0, [])
  {
    var r := ConfigureAll(db, filter, configure).db;
    var n := |db.pkgs|;
    ConfigureUpToErr(db, filter, configure, n);
    forall k | 0 <= k < n ensures !Attempted(filter, r.pkgs[k]) {
      ConfigureUpToPkg(db, filter, configure, n, k);
    }
    var second := ConfigureAll(r, filter, again);
    assert |r.pkgs| == n;
    assert second == ConfigureUpTo(r, filter, again, n);
    forall k | 0 <= k < n ensures second.db.pkgs[k] == r.pkgs[k] {
      ConfigureUpToPkg(r, filter, again, n, k);
    }
    forall j | 0 <= j < |r.abstracts| ensures second.db.abstracts[j] == r.abstracts[j] {
      ConfigureUpToAbstract(r, filter, again, n, j);
      assert !Propagated(r, filter, again, n, j);
    }
    ConfigureUpToErr(r, filter, again, n);
    ConfigureUpToCalls(r, filter, again, n);
    CallsNone(r, filter, n);
    assert second.db.pkgs == r.pkgs;
    assert second.db.abstracts == r.abstracts;
    assert second.err == 0;
  }
}
