/** The molecule codec: a toolkit molecule becomes the JSON molecule record
    (atoms, three bond lists, optional properties and conformers) and back.
    Source: src/atomlite/_internal/json.py. */
module MoleculeJson {
  import opened Wrappers
  import T = Toolkit

  /** A JSON value as the properties dictionary holds it:
      a number, a string, null, a list or an object. */
  datatype Json =
    | Null
    | Number(n: real)
    | Str(s: string)
    | List(items: seq<Json>)
    | Object(fields: map<string, Json>)

  /** One atom of the record: atomic number and formal charge. */
  datatype Atom = Atom(atomicNumber: int, charge: int)

  /** An ordinary or dative bond of the record, with its stored order. */
  datatype Bond = Bond(atom1: int, atom2: int, order: real)

  /** An aromatic bond of the record: no order is stored. */
  datatype AromaticBond = AromaticBond(atom1: int, atom2: int)

  /** The JSON molecule record. `None` is a key that is absent from the
      dictionary, which is not the same as a key holding an empty list. */
  datatype Molecule = Molecule(
    atoms: seq<Atom>,
    bonds: Option<seq<Bond>>,
    dativeBonds: Option<seq<Bond>>,
    aromaticBonds: Option<seq<AromaticBond>>,
    properties: Option<map<string, Json>>,
    conformers: Option<seq<T.Conformer>>)

  /** `UnknownBondTypeName` is only raised by the encoder as written (see
      `EncodeAsWritten`); the corrected encoder raises `UnsupportedBondType`. */
  datatype EncodeError = UnsupportedBondType | UnknownBondTypeName

  /** What makes decoding raise: a stored order that names no bond type, a
      bond the toolkit's builder refuses (an end that is not an atom, a bond
      from an atom to itself, a second bond between the same two atoms), or
      a conformer with more coordinates than the molecule has atoms. */
  datatype DecodeError = InvalidBondOrder | BondRejected | ConformerAtomCountMismatch

  // ---------------------------------------------------------------------
  // Encoding
  // ---------------------------------------------------------------------

  /** The three bond collections of the record, and the kinds the encoder
      refuses. */
  datatype BondClass = OrdinaryOrder | DativeClass | AromaticClass | Unsupported

  /** The encoder's classification of a bond type. */
  function ClassOf(k: T.BondType): (c: BondClass)
    ensures c == OrdinaryOrder <==> T.IsOrdinary(k)
    ensures c == DativeClass <==> k == T.Dative
    ensures c == AromaticClass <==> k == T.Aromatic
    ensures c == Unsupported <==> k.Other?
  {
    if T.IsOrdinary(k) then OrdinaryOrder
    else if k.Dative? then DativeClass
    else if k.Aromatic? then AromaticClass
    else Unsupported
  }

  /** The bonds of class `c`, in bond-index order. */
  function Select(bonds: seq<T.Bond>, c: BondClass): (r: seq<T.Bond>)
    ensures |r| <= |bonds|
    ensures forall i :: 0 <= i < |r| ==> ClassOf(r[i].kind) == c
  {
    if bonds == [] then []
    else
      var prefix, last := bonds[..|bonds| - 1], bonds[|bonds| - 1];
      assert bonds == prefix + [last];
      var selected := Select(prefix, c);
      if ClassOf(last.kind) == c then selected + [last] else selected
  }

  /** Selecting from a sequence with one more bond at the end. */
  lemma SelectSnoc(bonds: seq<T.Bond>, b: T.Bond, c: BondClass)
    ensures Select(bonds + [b], c) == Select(bonds, c) + (if ClassOf(b.kind) == c then [b] else [])
  {
    assert (bonds + [b])[..|bonds|] == bonds;
  }

  /** How the encoder stores an ordinary bond (its order) or a dative bond
      (order 1.0). */
  function ToJsonBond(b: T.Bond): Bond
    requires ClassOf(b.kind) == OrdinaryOrder || ClassOf(b.kind) == DativeClass
  {
    Bond(b.begin, b.end, if ClassOf(b.kind) == OrdinaryOrder then T.OrderOf(b.kind) else 1.0)
  }

  /** The records of ordinary and dative bonds, in order. */
  function JsonBonds(s: seq<T.Bond>): seq<Bond>
    requires forall i :: 0 <= i < |s| ==> ClassOf(s[i].kind) == OrdinaryOrder || ClassOf(s[i].kind) == DativeClass
  {
    seq(|s|, i requires 0 <= i < |s| => ToJsonBond(s[i]))
  }

  /** The records of aromatic bonds, in order. */
  function AromaticRecords(s: seq<T.Bond>): seq<AromaticBond>
  {
    seq(|s|, i requires 0 <= i < |s| => AromaticBond(s[i].begin, s[i].end))
  }

  /** One more bond gives one more record at the end. */
  lemma JsonBondsSnoc(s: seq<T.Bond>, b: T.Bond)
    requires forall i :: 0 <= i < |s| ==> ClassOf(s[i].kind) == OrdinaryOrder || ClassOf(s[i].kind) == DativeClass
    requires ClassOf(b.kind) == OrdinaryOrder || ClassOf(b.kind) == DativeClass
    ensures JsonBonds(s + [b]) == JsonBonds(s) + [ToJsonBond(b)]
  {
    assert forall i :: 0 <= i < |s| ==> (s + [b])[i] == s[i];
  }

  /** One more aromatic bond gives one more record at the end. */
  lemma AromaticRecordsSnoc(s: seq<T.Bond>, b: T.Bond)
    ensures AromaticRecords(s + [b]) == AromaticRecords(s) + [AromaticBond(b.begin, b.end)]
  {
    assert forall i :: 0 <= i < |s| ==> (s + [b])[i] == s[i];
  }

  /** The `bonds` list the encoder builds. */
  function OrdinaryBonds(bonds: seq<T.Bond>): seq<Bond>
  {
    JsonBonds(Select(bonds, OrdinaryOrder))
  }

  /** The `dative_bonds` list the encoder builds. */
  function DativeBonds(bonds: seq<T.Bond>): seq<Bond>
  {
    JsonBonds(Select(bonds, DativeClass))
  }

  /** The `aromatic_bonds` list the encoder builds. */
  function AromaticBonds(bonds: seq<T.Bond>): seq<AromaticBond>
  {
    AromaticRecords(Select(bonds, AromaticClass))
  }

  /** An optional key holds its list only when the list is non-empty. */
  function NonEmpty<X>(s: seq<X>): Option<seq<X>>
  {
    if |s| == 0 then None else Some(s)
  }

  /** Some bond of the molecule has a kind the encoder does not support. */
  predicate HasUnsupportedBond(m: T.Mol)
  {
    exists i :: 0 <= i < |m.bonds| && ClassOf(m.bonds[i].kind) == Unsupported
  }

  /** The record the encoder produces, or the error it raises. */
  function Encode(m: T.Mol, properties: Option<map<string, Json>>): Result<Molecule, EncodeError>
  {
    if HasUnsupportedBond(m) then Err(UnsupportedBondType)
    else Ok(Molecule(
      seq(|m.atoms|, i requires 0 <= i < |m.atoms| => Atom(m.atoms[i].atomicNumber, m.atoms[i].formalCharge)),
      NonEmpty(OrdinaryBonds(m.bonds)),
      NonEmpty(DativeBonds(m.bonds)),
      NonEmpty(AromaticBonds(m.bonds)),
      properties,
      if |m.conformers| > 0 then Some(m.conformers) else None))
  }

  /** The `bonds` list after bond `i`: it grows by that bond's record
      exactly when the bond has an ordinary kind. */
  lemma OrdinaryBondsStep(bonds: seq<T.Bond>, i: nat)
    requires i < |bonds|
    ensures ClassOf(bonds[i].kind) == OrdinaryOrder ==>
      OrdinaryBonds(bonds[..i + 1]) == OrdinaryBonds(bonds[..i]) + [ToJsonBond(bonds[i])]
    ensures ClassOf(bonds[i].kind) != OrdinaryOrder ==> OrdinaryBonds(bonds[..i + 1]) == OrdinaryBonds(bonds[..i])
  {
    assert bonds[..i + 1] == bonds[..i] + [bonds[i]];
    SelectSnoc(bonds[..i], bonds[i], OrdinaryOrder);
    if ClassOf(bonds[i].kind) == OrdinaryOrder {
      JsonBondsSnoc(Select(bonds[..i], OrdinaryOrder), bonds[i]);
    }
  }

  /** The `dative_bonds` list after bond `i`. */
  lemma DativeBondsStep(bonds: seq<T.Bond>, i: nat)
    requires i < |bonds|
    ensures ClassOf(bonds[i].kind) == DativeClass ==>
      DativeBonds(bonds[..i + 1]) == DativeBonds(bonds[..i]) + [ToJsonBond(bonds[i])]
    ensures ClassOf(bonds[i].kind) != DativeClass ==> DativeBonds(bonds[..i + 1]) == DativeBonds(bonds[..i])
  {
    assert bonds[..i + 1] == bonds[..i] + [bonds[i]];
    SelectSnoc(bonds[..i], bonds[i], DativeClass);
    if ClassOf(bonds[i].kind) == DativeClass {
      JsonBondsSnoc(Select(bonds[..i], DativeClass), bonds[i]);
    }
  }

  /** The `aromatic_bonds` list after bond `i`. */
  lemma AromaticBondsStep(bonds: seq<T.Bond>, i: nat)
    requires i < |bonds|
    ensures ClassOf(bonds[i].kind) == AromaticClass ==>
      AromaticBonds(bonds[..i + 1]) == AromaticBonds(bonds[..i]) + [AromaticBond(bonds[i].begin, bonds[i].end)]
    ensures ClassOf(bonds[i].kind) != AromaticClass ==> AromaticBonds(bonds[..i + 1]) == AromaticBonds(bonds[..i])
  {
    assert bonds[..i + 1] == bonds[..i] + [bonds[i]];
    SelectSnoc(bonds[..i], bonds[i], AromaticClass);
    if ClassOf(bonds[i].kind) == AromaticClass {
      AromaticRecordsSnoc(Select(bonds[..i], AromaticClass), bonds[i]);
    }
  }

  /** The bond loop of the encoder: one pass over the bonds sorts each into
      its list, and stops at the first bond of an unsupported kind. */
  method SortBonds(bonds: seq<T.Bond>)
    returns (ok: bool, ordinary: seq<Bond>, dative: seq<Bond>, aromatic: seq<AromaticBond>)
    ensures ok <==> forall i :: 0 <= i < |bonds| ==> ClassOf(bonds[i].kind) != Unsupported
    ensures ok ==> ordinary == OrdinaryBonds(bonds) && dative == DativeBonds(bonds) && aromatic == AromaticBonds(bonds)
  {
    ordinary, dative, aromatic := [], [], [];
    for i := 0 to |bonds|
      invariant forall j :: 0 <= j < i ==> ClassOf(bonds[j].kind) != Unsupported
      invariant ordinary == OrdinaryBonds(bonds[..i])
      invariant dative == DativeBonds(bonds[..i])
      invariant aromatic == AromaticBonds(bonds[..i])
    {
      var bond := bonds[i];
      OrdinaryBondsStep(bonds, i);
      DativeBondsStep(bonds, i);
      AromaticBondsStep(bonds, i);
      match ClassOf(bond.kind)
      case OrdinaryOrder =>
        ordinary := ordinary + [Bond(bond.begin, bond.end, T.OrderOf(bond.kind))];
      case DativeClass =>
        dative := dative + [Bond(bond.begin, bond.end, 1.0)];
      case AromaticClass =>
        aromatic := aromatic + [AromaticBond(bond.begin, bond.end)];
      case Unsupported =>
        return false, ordinary, dative, aromatic;
    }
    assert bonds[..|bonds|] == bonds;
    ok := true;
  }

  /** Converts a toolkit molecule to the JSON record: the bonds are sorted
      into their lists, and the optional keys are then filled in only when
      there is something to store. */
  method FromRdkit(m: T.Mol, properties: Option<map<string, Json>>)
    returns (r: Result<Molecule, EncodeError>)
    ensures r == Encode(m, properties)
    ensures r.Err? <==> HasUnsupportedBond(m)
    ensures r.Err? ==> r.error == UnsupportedBondType
  {
    var ok, bonds, dativeBonds, aromaticBonds := SortBonds(m.bonds);
    if !ok {
      return Err(UnsupportedBondType);
    }
    var d := Molecule(
      seq(|m.atoms|, i requires 0 <= i < |m.atoms| => Atom(m.atoms[i].atomicNumber, m.atoms[i].formalCharge)),
      None, None, None, None, None);
    if |bonds| > 0 {
      d := d.(bonds := Some(bonds));
    }
    if |dativeBonds| > 0 {
      d := d.(dativeBonds := Some(dativeBonds));
    }
    if |aromaticBonds| > 0 {
      d := d.(aromaticBonds := Some(aromaticBonds));
    }
    if properties.Some? {
      d := d.(properties := properties);
    }
    if |m.conformers| > 0 {
      d := d.(conformers := Some(m.conformers));
    }
    r := Ok(d);
  }

  // ---------------------------------------------------------------------
  // The encoder as written
  // ---------------------------------------------------------------------

  /** The classification as the source writes it. The half-order case
      names misspell the toolkit's bond types, and so does the dative case.
      The alternatives of a case are tried in order, and a name the toolkit
      does not define raises when it is tried. So only the six whole-order
      kinds, which come before the first misspelt name, get classified;
      every other bond makes the match raise. */
  function ClassOfAsWritten(k: T.BondType): Option<BondClass>
  {
    if k.Single? || k.Double? || k.Triple? || k.Quadruple? || k.Quintuple? || k.Hextuple? then Some(OrdinaryOrder)
    else None
  }

  /** The encoder as written: it fails on the first bond that the faulty
      match cannot classify and otherwise agrees with `Encode`. */
  function EncodeAsWritten(m: T.Mol, properties: Option<map<string, Json>>): Result<Molecule, EncodeError>
  {
    if exists i :: 0 <= i < |m.bonds| && ClassOfAsWritten(m.bonds[i].kind).None? then Err(UnknownBondTypeName)
    else Encode(m, properties)
  }

  /** Two carbons joined by one bond of order 1.5: the encoder as written
      raises at the misspelt half-order name, while the intended encoder
      stores the bond in `bonds` with order 1.5. */
  lemma HalfOrderRejectedAsWritten()
    ensures var m := T.Mol([T.Atom(6, 0, false), T.Atom(6, 0, false)], [T.Bond(0, 1, T.OneAndHalf)], []);
      && EncodeAsWritten(m, None) == Err(UnknownBondTypeName)
      && Encode(m, None) == Ok(Molecule([Atom(6, 0), Atom(6, 0)], Some([Bond(0, 1, 1.5)]), None, None, None, None))
  {
    var m := T.Mol([T.Atom(6, 0, false), T.Atom(6, 0, false)], [T.Bond(0, 1, T.OneAndHalf)], []);
    assert ClassOfAsWritten(m.bonds[0].kind).None?;
    assert m.bonds == [] + [m.bonds[0]];
    SelectSnoc([], m.bonds[0], OrdinaryOrder);
    SelectSnoc([], m.bonds[0], DativeClass);
    SelectSnoc([], m.bonds[0], AromaticClass);
    assert !HasUnsupportedBond(m);
    assert Encode(m, None).value.atoms == [Atom(6, 0), Atom(6, 0)];
    assert OrdinaryBonds(m.bonds) == [Bond(0, 1, 1.5)];
    assert DativeBonds(m.bonds) == [];
    assert AromaticBonds(m.bonds) == [];
  }

  /** A chloride bound to iron by one dative bond, as in the dative test:
      the encoder as written raises, while the intended encoder stores the
      bond in `dative_bonds` with order 1.0. The same happens to every
      aromatic bond and every half-order bond. */
  lemma DativeCaseRejectedAsWritten()
    ensures var m := T.Mol([T.Atom(17, 0, false), T.Atom(26, 0, false)], [T.Bond(0, 1, T.Dative)], []);
      && EncodeAsWritten(m, None) == Err(UnknownBondTypeName)
      && Encode(m, None) == Ok(Molecule([Atom(17, 0), Atom(26, 0)], None, Some([Bond(0, 1, 1.0)]), None, None, None))
  {
    var m := T.Mol([T.Atom(17, 0, false), T.Atom(26, 0, false)], [T.Bond(0, 1, T.Dative)], []);
    assert ClassOfAsWritten(m.bonds[0].kind).None?;
    assert Select(m.bonds, OrdinaryOrder) == [] by {
      assert m.bonds == [] + [m.bonds[0]];
      SelectSnoc([], m.bonds[0], OrdinaryOrder);
    }
    assert Select(m.bonds, DativeClass) == [m.bonds[0]] by {
      assert m.bonds == [] + [m.bonds[0]];
      SelectSnoc([], m.bonds[0], DativeClass);
    }
    assert Select(m.bonds, AromaticClass) == [] by {
      assert m.bonds == [] + [m.bonds[0]];
      SelectSnoc([], m.bonds[0], AromaticClass);
    }
    assert !HasUnsupportedBond(m);
    assert Encode(m, None).value.atoms == [Atom(17, 0), Atom(26, 0)];
    assert OrdinaryBonds(m.bonds) == [];
    assert DativeBonds(m.bonds) == [Bond(0, 1, 1.0)];
    assert AromaticBonds(m.bonds) == [];
  }

  // ---------------------------------------------------------------------
  // Decoding
  // ---------------------------------------------------------------------

  /** One call of the builder's bond adder: the two atom indices and the bond
      type, which is `None` when a stored order names no bond type. */
  datatype BondRequest = BondRequest(atom1: int, atom2: int, kind: Option<T.BondType>)

  /** The requests of the loop over the `bonds` list: the bond type is read
      back from the stored order. */
  function OrdinaryRequests(bonds: seq<Bond>): seq<BondRequest>
  {
    seq(|bonds|, i requires 0 <= i < |bonds| => BondRequest(bonds[i].atom1, bonds[i].atom2, T.KindOfOrder(bonds[i].order)))
  }

  /** The requests of the loop over `dative_bonds`: always dative, whatever
      order is stored. */
  function DativeRequests(bonds: seq<Bond>): seq<BondRequest>
  {
    seq(|bonds|, i requires 0 <= i < |bonds| => BondRequest(bonds[i].atom1, bonds[i].atom2, Some(T.Dative)))
  }

  /** The requests of the loop over `aromatic_bonds`: always aromatic. */
  function AromaticRequests(bonds: seq<AromaticBond>): seq<BondRequest>
  {
    seq(|bonds|, i requires 0 <= i < |bonds| => BondRequest(bonds[i].atom1, bonds[i].atom2, Some(T.Aromatic)))
  }

  /** The bonds the builder holds after serving the requests in order,
      starting from the bonds `start`, or the error of the first request it
      cannot serve. */
  function AddBonds(numAtoms: nat, start: seq<T.Bond>, requests: seq<BondRequest>): Result<seq<T.Bond>, DecodeError>
  {
    if requests == [] then Ok(start)
    else
      match AddBonds(numAtoms, start, requests[..|requests| - 1])
      case Err(e) => Err(e)
      case Ok(bonds) =>
        var q := requests[|requests| - 1];
        if q.kind.None? then Err(InvalidBondOrder)
        else if !T.CanAddBond(numAtoms, bonds, q.atom1, q.atom2) then Err(BondRejected)
        else Ok(bonds + [T.Bond(q.atom1, q.atom2, q.kind.value)])
  }

  /** Once a request has failed, later requests are never served. */
  lemma {:induction false} AddBondsErrorSticks(numAtoms: nat, start: seq<T.Bond>, requests: seq<BondRequest>, k: nat)
    requires k <= |requests|
    requires AddBonds(numAtoms, start, requests[..k]).Err?
    ensures AddBonds(numAtoms, start, requests) == AddBonds(numAtoms, start, requests[..k])
    decreases |requests| - k
  {
    if k < |requests| {
      assert requests[..k + 1][..k] == requests[..k];
      AddBondsErrorSticks(numAtoms, start, requests, k + 1);
    } else {
      assert requests[..k] == requests;
    }
  }

  /** The bonds of the decoded molecule: the three bond loops run one after
      the other, each continuing from the bonds the previous one left; an
      absent list adds nothing. */
  function DecodeBonds(mol: Molecule): Result<seq<T.Bond>, DecodeError>
  {
    var n := |mol.atoms|;
    match AddBonds(n, [], OrdinaryRequests(OrEmpty(mol.bonds)))
    case Err(e) => Err(e)
    case Ok(ordinary) =>
      match AddBonds(n, ordinary, DativeRequests(OrEmpty(mol.dativeBonds)))
      case Err(e) => Err(e)
      case Ok(withDative) => AddBonds(n, withDative, AromaticRequests(OrEmpty(mol.aromaticBonds)))
  }

  /** Some atom `i` has a position in one of the conformers. */
  predicate Positioned(conformers: seq<seq<T.Point3>>, i: int)
  {
    exists k :: 0 <= k < |conformers| && i < |conformers[k]|
  }

  /** A fresh conformer of `numAtoms` atoms after its first `|coords|` atoms
      have been placed. */
  function Placed(coords: seq<T.Point3>, numAtoms: nat): (c: T.Conformer)
    requires |coords| <= numAtoms
    ensures |c| == numAtoms
    ensures forall i :: 0 <= i < numAtoms ==> c[i] == if i < |coords| then coords[i] else T.Origin
  {
    coords + seq(numAtoms - |coords|, _ => T.Origin)
  }

  /** The atoms the decoder adds, before any conformer marks them. */
  function BaseAtoms(mol: Molecule): (atoms: seq<T.Atom>)
    ensures |atoms| == |mol.atoms|
  {
    seq(|mol.atoms|, i requires 0 <= i < |mol.atoms| => T.Atom(mol.atoms[i].atomicNumber, mol.atoms[i].charge, false))
  }

  /** The molecule after one conformer per coordinate list has been added,
      each atom with a coordinate marked as having no implicit hydrogens; or
      the error raised by a list with more coordinates than there are atoms. */
  function WithConformers(m: T.Mol, confs: seq<seq<T.Point3>>): Result<T.Mol, DecodeError>
  {
    var n := |m.atoms|;
    if exists k :: 0 <= k < |confs| && |confs[k]| > n then Err(ConformerAtomCountMismatch)
    else Ok(T.Mol(
      seq(n, i requires 0 <= i < n => m.atoms[i].(noImplicit := m.atoms[i].noImplicit || Positioned(confs, i))),
      m.bonds,
      m.conformers + seq(|confs|, k requires 0 <= k < |confs| => Placed(confs[k], n))))
  }

  /** The toolkit molecule the decoder builds, or the error it raises. */
  function Decode(mol: Molecule): Result<T.Mol, DecodeError>
  {
    match DecodeBonds(mol)
    case Err(e) => Err(e)
    case Ok(bonds) => WithConformers(T.Mol(BaseAtoms(mol), bonds, []), OrEmpty(mol.conformers))
  }

  /** One more conformer positions the atoms it has coordinates for. */
  lemma PositionedSnoc(conformers: seq<seq<T.Point3>>, k: nat, i: int)
    requires k < |conformers|
    ensures Positioned(conformers[..k + 1], i) == (Positioned(conformers[..k], i) || i < |conformers[k]|)
  {
    if Positioned(conformers[..k + 1], i) {
      var c :| 0 <= c < k + 1 && i < |conformers[..k + 1][c]|;
      if c < k {
        assert conformers[..k][c] == conformers[c];
      }
    }
    if Positioned(conformers[..k], i) {
      var c :| 0 <= c < k && i < |conformers[..k][c]|;
      assert conformers[..k + 1][c] == conformers[c];
    }
    if i < |conformers[k]| {
      assert conformers[..k + 1][k] == conformers[k];
    }
  }

  /** Serves one bond request on the builder, as the decoder's bond loops do. */
  method AddRequestedBond(em: T.EditableMol, q: BondRequest, ghost start: seq<T.Bond>, ghost requests: seq<BondRequest>, ghost k: nat)
    returns (ok: bool, ghost err: DecodeError)
    requires k < |requests| && requests[k] == q
    requires AddBonds(|em.atoms|, start, requests[..k]) == Ok(em.bonds)
    modifies em
    ensures em.atoms == old(em.atoms)
    ensures ok ==> AddBonds(|em.atoms|, start, requests[..k + 1]) == Ok(em.bonds)
    ensures !ok ==> AddBonds(|em.atoms|, start, requests) == Err(err)
    ensures !ok ==> err == if q.kind.None? then InvalidBondOrder else BondRejected
  {
    assert requests[..k + 1][..k] == requests[..k];
    err := InvalidBondOrder;
    if q.kind.None? {
      ok := false;
    } else {
      ok := em.AddBond(q.atom1, q.atom2, q.kind.value);
      err := BondRejected;
    }
    if !ok {
      AddBondsErrorSticks(|em.atoms|, start, requests, k + 1);
    }
  }

  /** Builds a toolkit molecule from the JSON record: atoms with their
      charges, then the ordinary, dative and aromatic bonds, then one
      conformer per stored coordinate list, marking each positioned atom as
      having no implicit hydrogens. */
  method ToRdkit(mol: Molecule) returns (r: Result<T.Mol, DecodeError>)
    ensures r == Decode(mol)
  {
    var em := new T.EditableMol();
    var n := |mol.atoms|;
    for i := 0 to n
      invariant em.bonds == []
      invariant em.atoms == seq(i, j requires 0 <= j < i => T.Atom(mol.atoms[j].atomicNumber, mol.atoms[j].charge, false))
    {
      var _ := em.AddAtom(T.Atom(mol.atoms[i].atomicNumber, mol.atoms[i].charge, false));
    }
    var failure := AddOrdinaryBonds(em, OrEmpty(mol.bonds));
    if failure.Some? {
      return Err(failure.value);
    }
    failure := AddDativeBonds(em, OrEmpty(mol.dativeBonds));
    if failure.Some? {
      return Err(failure.value);
    }
    failure := AddAromaticBonds(em, OrEmpty(mol.aromaticBonds));
    if failure.Some? {
      return Err(failure.value);
    }
    assert em.atoms == BaseAtoms(mol);
    r := AddConformers(em.GetMol(), OrEmpty(mol.conformers));
  }

  /** The loop over the `bonds` list: each bond is added with the type its
      stored order names; an order that names none stops the decoding. */
  method AddOrdinaryBonds(em: T.EditableMol, bonds: seq<Bond>) returns (failure: Option<DecodeError>)
    modifies em
    ensures em.atoms == old(em.atoms)
    ensures AddBonds(|em.atoms|, old(em.bonds), OrdinaryRequests(bonds)) ==
      if failure.None? then Ok(em.bonds) else Err(failure.value)
  {
    ghost var start, requests := em.bonds, OrdinaryRequests(bonds);
    assert requests[..0] == [];
    for i := 0 to |bonds|
      invariant em.atoms == old(em.atoms)
      invariant AddBonds(|em.atoms|, start, requests[..i]) == Ok(em.bonds)
    {
      var kind := T.KindOfOrder(bonds[i].order);
      var ok, err := AddRequestedBond(em, BondRequest(bonds[i].atom1, bonds[i].atom2, kind), start, requests, i);
      if !ok {
        if kind.None? {
          return Some(InvalidBondOrder);
        }
        return Some(BondRejected);
      }
    }
    assert requests[..|bonds|] == requests;
    failure := None;
  }

  /** The loop over the `dative_bonds` list: each bond is added as dative,
      whatever order is stored. */
  method AddDativeBonds(em: T.EditableMol, bonds: seq<Bond>) returns (failure: Option<DecodeError>)
    modifies em
    ensures em.atoms == old(em.atoms)
    ensures AddBonds(|em.atoms|, old(em.bonds), DativeRequests(bonds)) ==
      if failure.None? then Ok(em.bonds) else Err(failure.value)
  {
    ghost var start, requests := em.bonds, DativeRequests(bonds);
    assert requests[..0] == [];
    for i := 0 to |bonds|
      invariant em.atoms == old(em.atoms)
      invariant AddBonds(|em.atoms|, start, requests[..i]) == Ok(em.bonds)
    {
      var ok, err := AddRequestedBond(em, BondRequest(bonds[i].atom1, bonds[i].atom2, Some(T.Dative)), start, requests, i);
      if !ok {
        return Some(BondRejected);
      }
    }
    assert requests[..|bonds|] == requests;
    failure := None;
  }

  /** The loop over the `aromatic_bonds` list: each bond is added as
      aromatic. */
  method AddAromaticBonds(em: T.EditableMol, bonds: seq<AromaticBond>) returns (failure: Option<DecodeError>)
    modifies em
    ensures em.atoms == old(em.atoms)
    ensures AddBonds(|em.atoms|, old(em.bonds), AromaticRequests(bonds)) ==
      if failure.None? then Ok(em.bonds) else Err(failure.value)
  {
    ghost var start, requests := em.bonds, AromaticRequests(bonds);
    assert requests[..0] == [];
    for i := 0 to |bonds|
      invariant em.atoms == old(em.atoms)
      invariant AddBonds(|em.atoms|, start, requests[..i]) == Ok(em.bonds)
    {
      var ok, err := AddRequestedBond(em, BondRequest(bonds[i].atom1, bonds[i].atom2, Some(T.Aromatic)), start, requests, i);
      if !ok {
        return Some(BondRejected);
      }
    }
    assert requests[..|bonds|] == requests;
    failure := None;
  }

  /** The conformer loop of the decoder: a fresh conformer per coordinate
      list, each coordinate placed on its atom and that atom marked. */
  method AddConformers(m: T.Mol, confs: seq<seq<T.Point3>>) returns (r: Result<T.Mol, DecodeError>)
    ensures r == WithConformers(m, confs)
  {
    var n := |m.atoms|;
    var atoms := m.atoms;
    var conformers := m.conformers;
    for k := 0 to |confs|
      invariant |atoms| == n
      invariant forall c :: 0 <= c < k ==> |confs[c]| <= n
      invariant conformers == m.conformers + seq(k, c requires 0 <= c < k => Placed(confs[c], n))
      invariant forall i :: 0 <= i < n ==>
        atoms[i] == m.atoms[i].(noImplicit := m.atoms[i].noImplicit || Positioned(confs[..k], i))
    {
      var conf := seq(n, _ => T.Origin);
      var coords := confs[k];
      for atomId := 0 to |coords|
        invariant atomId <= n && |conf| == n && |atoms| == n
        invariant forall i :: 0 <= i < n ==> conf[i] == if i < atomId then coords[i] else T.Origin
        invariant forall i :: 0 <= i < n ==>
          atoms[i] == m.atoms[i].(noImplicit := m.atoms[i].noImplicit || Positioned(confs[..k], i) || i < atomId)
      {
        if atomId >= n {
          assert |confs[k]| > n;
          return Err(ConformerAtomCountMismatch);
        }
        conf := conf[atomId := coords[atomId]];
        atoms := atoms[atomId := atoms[atomId].(noImplicit := true)];
      }
      forall i | 0 <= i < n
        ensures Positioned(confs[..k + 1], i) == (Positioned(confs[..k], i) || i < |coords|)
      {
        PositionedSnoc(confs, k, i);
      }
      assert conf == Placed(coords, n);
      conformers := conformers + [conf];
    }
    assert confs[..|confs|] == confs;
    assert atoms == seq(n, i requires 0 <= i < n => m.atoms[i].(noImplicit := m.atoms[i].noImplicit || Positioned(confs, i)));
    r := Ok(T.Mol(atoms, m.bonds, conformers));
  }

  // ---------------------------------------------------------------------
  // Entries
  // ---------------------------------------------------------------------

  /** The molecule as JSON text. Serialising and parsing are modelled as a
      lossless wrapper: what is read back is what was written. */
  datatype MoleculeText = Dumps(document: Molecule)

  /** A database entry: a key and the molecule as JSON text. */
  datatype Entry = Entry(key: string, molecule: MoleculeText)

  /** The molecule an entry holds, parsed back from its text. */
  function EntryMolecule(e: Entry): Molecule
  {
    e.molecule.document
  }

  /** Makes an entry from a key, a toolkit molecule and optional properties:
      the molecule is encoded and stored as text under the key. */
  method EntryFromRdkit(key: string, m: T.Mol, properties: Option<map<string, Json>> := None)
    returns (r: Result<Entry, EncodeError>)
    ensures r.Err? <==> HasUnsupportedBond(m)
    ensures r.Ok? ==> r.value.key == key && EntryMolecule(r.value) == Encode(m, properties).value
  {
    var doc := FromRdkit(m, properties);
    match doc
    case Err(e) => r := Err(e);
    case Ok(d) => r := Ok(Entry(key, Dumps(d)));
  }
}
