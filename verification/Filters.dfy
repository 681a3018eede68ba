/** Filter expressions: the parsed policy lines both compilers start from. */
module Filters {
  import opened Bits

  datatype Operator = Eq | Ne | Lt | Le | Gt | Ge | Set | In

  datatype AtomExpr = AtomExpr(arg: nat, op: Operator, value: U64)

  /** A disjunction of conjunctions of atoms. */
  type Dnf = seq<seq<AtomExpr>>

  /** Unsigned 64-bit comparison of an argument with a constant; `In` says that
      the argument has no bit outside the mask. */
  predicate Holds(op: Operator, v: U64, c: U64) {
    match op
    case Eq => v == c
    case Ne => v != c
    case Lt => v < c
    case Le => v <= c
    case Gt => v > c
    case Ge => v >= c
    case Set => And(v, c) != 0
    case In => And(v, c) == v
  }

  predicate AtomHolds(atom: AtomExpr, args: seq<U64>) {
    atom.arg < |args| && Holds(atom.op, args[atom.arg], atom.value)
  }

  predicate ClauseHolds(atoms: seq<AtomExpr>, args: seq<U64>) {
    forall i :: 0 <= i < |atoms| ==> AtomHolds(atoms[i], args)
  }

  predicate DnfHolds(dnf: Dnf, args: seq<U64>) {
    exists i :: 0 <= i < |dnf| && ClauseHolds(dnf[i], args)
  }

  predicate ClauseInRange(atoms: seq<AtomExpr>, args: nat) {
    forall i :: 0 <= i < |atoms| ==> atoms[i].arg < args
  }

  predicate DnfInRange(dnf: Dnf, args: nat) {
    forall i :: 0 <= i < |dnf| ==> ClauseInRange(dnf[i], args)
  }
}
