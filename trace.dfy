/** The observable side effects of the engine, in the order they happen: calls
    into collaborators, status persistence, and the values handed to the
    caller's progress callback. */
module Trace {
  import opened Wrappers

  datatype Event =
    | Progress(percent: int)
    | PrepareUrl(name: string)
    | PreinstallCheck
    | InstallByName(id: string)
    | InstallMultiByName(id: string)
    | ConfigurePkg(index: nat)
    | WriteStatusFiles
    | WriteFilelists
    | RemovePkg(target: Option<nat>)
    | UpgradePkg(pkgIndex: nat)
    | Download(url: string, file: string)
    | Unzip(from: string, to: string)
    | Verify(file: string, sig: string)

  /** The progress values of a trace, in order. */
  function Progresses(trace: seq<Event>): (r: seq<int>)
    ensures |r| <= |trace|
  {
    if trace == [] then []
    else (if trace[0].Progress? then [trace[0].percent] else []) + Progresses(trace[1..])
  }

  predicate NonDecreasing(s: seq<int>) {
    forall i, j :: 0 <= i < j < |s| ==> s[i] <= s[j]
  }

  /** Every value of `s` lies in [lo, hi]. */
  predicate Within(s: seq<int>, lo: int, hi: int) {
    forall i :: 0 <= i < |s| ==> lo <= s[i] <= hi
  }

  lemma {:induction false} ProgressesAppend(a: seq<Event>, b: seq<Event>)
    ensures Progresses(a + b) == Progresses(a) + Progresses(b)
  {
    if a == [] {
      assert a + b == b;
    } else {
      assert (a + b)[0] == a[0];
      assert (a + b)[1..] == a[1..] + b;
      ProgressesAppend(a[1..], b);
    }
  }

  /** A trace without progress events reports nothing. */
  lemma {:induction false} ProgressesNone(t: seq<Event>)
    requires forall i :: 0 <= i < |t| ==> !t[i].Progress?
    ensures Progresses(t) == []
  {
    if t != [] {
      ProgressesNone(t[1..]);
    }
  }

  lemma ProgressesCons(e: Event, t: seq<Event>)
    ensures Progresses([e] + t) == (if e.Progress? then [e.percent] else []) + Progresses(t)
  {
    assert ([e] + t)[0] == e;
    assert ([e] + t)[1..] == t;
  }

  lemma ProgressesSingle(e: Event)
    ensures Progresses([e]) == if e.Progress? then [e.percent] else []
  {
    assert [e][1..] == [];
  }

  /** Appending to a trace in two steps or in one gives the same trace. */
  lemma AppendAssoc(a: seq<Event>, b: seq<Event>, c: seq<Event>)
    ensures a + b + c == a + (b + c)
  {
  }

  /** Two non-decreasing runs, the first ending no higher than the second starts,
      make one non-decreasing run. */
  lemma NonDecreasingConcat(a: seq<int>, b: seq<int>, mid: int)
    requires NonDecreasing(a) && NonDecreasing(b)
    requires forall i :: 0 <= i < |a| ==> a[i] <= mid
    requires forall i :: 0 <= i < |b| ==> mid <= b[i]
    ensures NonDecreasing(a + b)
  {
    forall i, j | 0 <= i < j < |a + b| ensures (a + b)[i] <= (a + b)[j] {
      if j < |a| {
      } else if i >= |a| {
        assert (a + b)[i] == b[i - |a|] && (a + b)[j] == b[j - |a|];
      } else {
        assert (a + b)[i] == a[i] && (a + b)[j] == b[j - |a|];
      }
    }
  }
}
