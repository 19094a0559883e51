/** Package records of the transaction engine.

    `Pkg` is one package variant (pkg_t); `AbstractPkg` is the name-level record
    that a variant's `parent` back-reference points to. Both live in arenas
    (sequences) and the back-reference is an index into the abstract arena. */
module Packages {
  import opened Wrappers

  /** The lifecycle of a record (pkg_state_status_t). States other than the four
      the engine itself reads or writes are set by collaborators and are kept
      apart by a code only. */
  datatype StateStatus =
    | NotInstalled
    | Unpacked
    | HalfConfigured
    | Installed
    | OtherStatus(code: nat)

  /** pkg_state_flag_t, a bit set. */
  type Flags = bv32

  /** "Prefer this candidate"; cleared once configuration succeeds. */
  const SF_PREFER: Flags := 16

  datatype Pkg = Pkg(
    name: string,
    version: Option<string>,
    architecture: Option<string>,
    description: Option<string>,
    tags: Option<string>,
    dest: nat,
    stateStatus: StateStatus,
    stateFlag: Flags,
    parent: nat)

  datatype AbstractPkg = AbstractPkg(name: string, stateStatus: StateStatus)

  /** The package hash: every known variant, in the order the available-packages
      query returns them, and the abstract records they point to. */
  datatype Db = Db(pkgs: seq<Pkg>, abstracts: seq<AbstractPkg>)

  /** Every parent back-reference resolves. */
  predicate ValidPkgs(pkgs: seq<Pkg>, abstractCount: nat) {
    forall i :: 0 <= i < |pkgs| ==> pkgs[i].parent < abstractCount
  }

  predicate ValidDb(db: Db) {
    ValidPkgs(db.pkgs, |db.abstracts|)
  }
}
