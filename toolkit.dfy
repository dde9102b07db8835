/** The part of the chemistry toolkit (RDKit) that the molecule codec talks to:
    atoms, typed bonds, conformers and the editable molecule that builds them.
    Nothing here computes chemistry; the toolkit is reduced to the data the
    codec reads and writes and to the checks its bond builder performs. */
module Toolkit {
  import opened Wrappers

  /** The toolkit's bond types. `Other` stands for every remaining kind
      (unspecified, ionic, hydrogen, three-centre, the directed dative
      variants, zero, ...), none of which the codec supports. */
  datatype BondType =
    | Single | Double | Triple | Quadruple | Quintuple | Hextuple
    | OneAndHalf | TwoAndHalf | ThreeAndHalf | FourAndHalf | FiveAndHalf
    | Dative
    | Aromatic
    | Other(name: string)

  /** The eleven kinds that carry a plain bond order. */
  predicate IsOrdinary(k: BondType)
  {
    !(k.Dative? || k.Aromatic? || k.Other?)
  }

  /** The toolkit's bond order as a number, on the ordinary kinds. The values
      are labels: the model never does arithmetic on them. */
  function OrderOf(k: BondType): real
    requires IsOrdinary(k)
  {
    match k
    case Single => 1.0
    case Double => 2.0
    case Triple => 3.0
    case Quadruple => 4.0
    case Quintuple => 5.0
    case Hextuple => 6.0
    case OneAndHalf => 1.5
    case TwoAndHalf => 2.5
    case ThreeAndHalf => 3.5
    case FourAndHalf => 4.5
    case FiveAndHalf => 5.5
  }

  /** The ordinary kind whose order is the given number, if there is one:
      the step that turns a stored order back into a bond type. */
  function KindOfOrder(order: real): (r: Option<BondType>)
    ensures r.Some? ==> IsOrdinary(r.value) && OrderOf(r.value) == order
    ensures r.None? ==> forall k :: IsOrdinary(k) ==> OrderOf(k) != order
  {
    if order == 1.0 then Some(Single)
    else if order == 2.0 then Some(Double)
    else if order == 3.0 then Some(Triple)
    else if order == 4.0 then Some(Quadruple)
    else if order == 5.0 then Some(Quintuple)
    else if order == 6.0 then Some(Hextuple)
    else if order == 1.5 then Some(OneAndHalf)
    else if order == 2.5 then Some(TwoAndHalf)
    else if order == 3.5 then Some(ThreeAndHalf)
    else if order == 4.5 then Some(FourAndHalf)
    else if order == 5.5 then Some(FiveAndHalf)
    else None
  }

  /** Reading an order back gives the kind that produced it. */
  lemma KindOfOrderInvertsOrderOf(k: BondType)
    requires IsOrdinary(k)
    ensures KindOfOrder(OrderOf(k)) == Some(k)
  {
  }

  /** A coordinate triple. Coordinates are only ever copied. */
  datatype Point3 = Point3(x: real, y: real, z: real)

  /** Where a fresh conformer places every atom. */
  const Origin := Point3(0.0, 0.0, 0.0)

  /** One position per atom, in atom-index order. */
  type Conformer = seq<Point3>

  datatype Atom = Atom(atomicNumber: int, formalCharge: int, noImplicit: bool)

  datatype Bond = Bond(begin: nat, end: nat, kind: BondType)

  /** A molecule: atoms (the index is the atom id), bonds in bond-index order
      and zero or more conformers. */
  datatype Mol = Mol(atoms: seq<Atom>, bonds: seq<Bond>, conformers: seq<Conformer>)

  /** Bond `b` joins atoms `i` and `j`, in either direction. */
  predicate Joins(b: Bond, i: int, j: int)
  {
    (b.begin == i && b.end == j) || (b.begin == j && b.end == i)
  }

  /** What the toolkit's bond builder accepts: both ends are atoms of the
      molecule, the ends differ, and no bond joins the two atoms yet. */
  predicate CanAddBond(numAtoms: nat, bonds: seq<Bond>, i: int, j: int)
  {
    && 0 <= i < numAtoms
    && 0 <= j < numAtoms
    && i != j
    && forall k :: 0 <= k < |bonds| ==> !Joins(bonds[k], i, j)
  }

  /** Every bond joins two distinct atoms among the first `numAtoms`. */
  ghost predicate BondsInRange(numAtoms: nat, bonds: seq<Bond>)
  {
    forall k :: 0 <= k < |bonds| ==>
      bonds[k].begin < numAtoms && bonds[k].end < numAtoms && bonds[k].begin != bonds[k].end
  }

  /** No two bonds join the same pair of atoms. */
  ghost predicate DistinctPairs(bonds: seq<Bond>)
  {
    forall k, l :: 0 <= k < l < |bonds| ==> !Joins(bonds[k], bonds[l].begin, bonds[l].end)
  }

  /** A molecule as the toolkit itself keeps one: every bond joins two
      distinct atoms of the molecule, no two bonds join the same pair, and
      every conformer has one position per atom. */
  ghost predicate WellFormed(m: Mol)
  {
    && BondsInRange(|m.atoms|, m.bonds)
    && DistinctPairs(m.bonds)
    && (forall c :: 0 <= c < |m.conformers| ==> |m.conformers[c]| == |m.atoms|)
  }

  /** The toolkit's editable molecule: atoms and bonds are appended one at a
      time; a bond the builder refuses leaves the molecule as it was. */
  class EditableMol {
    var atoms: seq<Atom>
    var bonds: seq<Bond>

    /** An editable copy of the empty molecule. */
    constructor ()
      ensures atoms == [] && bonds == []
    {
      atoms := [];
      bonds := [];
    }

    /** Appends an atom and returns its index. */
    method AddAtom(a: Atom) returns (index: nat)
      modifies this
      ensures atoms == old(atoms) + [a] && bonds == old(bonds)
      ensures index == |old(atoms)|
    {
      index := |atoms|;
      atoms := atoms + [a];
    }

    /** Appends a bond of kind `kind` from atom `i` to atom `j` when the
        builder accepts it, and reports whether it did. */
    method AddBond(i: int, j: int, kind: BondType) returns (ok: bool)
      modifies this
      ensures ok == CanAddBond(|old(atoms)|, old(bonds), i, j)
      ensures atoms == old(atoms)
      ensures ok ==> bonds == old(bonds) + [Bond(i, j, kind)]
      ensures !ok ==> bonds == old(bonds)
    {
      ok := CanAddBond(|atoms|, bonds, i, j);
      if ok {
        bonds := bonds + [Bond(i, j, kind)];
      }
    }

    /** The finished molecule, without conformers. */
    function GetMol(): Mol
      reads this
    {
      Mol(atoms, bonds, [])
    }
  }
}
