/** What the codec of src/atomlite/_internal/json.py promises: how the
    encoder partitions the bonds, which keys it writes, what the decoder
    rebuilds, and that decoding an encoded molecule gives the molecule back. */
module RoundTrip {
  import opened Wrappers
  import T = Toolkit
  import opened MoleculeJson

  // ---------------------------------------------------------------------
  // Selecting bonds by class
  // ---------------------------------------------------------------------

  /** Selecting from two bond lists one after the other selects from each
      in turn. */
  lemma {:induction false} SelectAppend(a: seq<T.Bond>, b: seq<T.Bond>, c: BondClass)
    ensures Select(a + b, c) == Select(a, c) + Select(b, c)
  {
    if b == [] {
      assert a + b == a;
    } else {
      var prefix, last := b[..|b| - 1], b[|b| - 1];
      assert (a + b)[..|a + b| - 1] == a + prefix;
      assert b[..|b| - 1] == prefix;
      SelectAppend(a, prefix, c);
    }
  }

  /** The bonds of class `c` among the first `i` are a prefix of those among
      the first `j`. */
  lemma SelectPrefix(bonds: seq<T.Bond>, c: BondClass, i: nat, j: nat)
    requires i <= j <= |bonds|
    ensures Select(bonds[..i], c) <= Select(bonds[..j], c)
  {
    assert bonds[..j] == bonds[..i] + bonds[i..j];
    SelectAppend(bonds[..i], bonds[i..j], c);
  }

  /** Where bond `i` sits in the list of its class: after the bonds of the
      same class that precede it. */
  function Rank(bonds: seq<T.Bond>, i: nat): nat
    requires i < |bonds|
  {
    |Select(bonds[..i], ClassOf(bonds[i].kind))|
  }

  /** Bond `i` is found in the list of its class at its rank. */
  lemma SelectRank(bonds: seq<T.Bond>, i: nat)
    requires i < |bonds|
    ensures var s := Select(bonds, ClassOf(bonds[i].kind));
      Rank(bonds, i) < |s| && s[Rank(bonds, i)] == bonds[i]
  {
    var c := ClassOf(bonds[i].kind);
    assert bonds[..i + 1] == bonds[..i] + [bonds[i]];
    SelectSnoc(bonds[..i], bonds[i], c);
    SelectPrefix(bonds, c, i + 1, |bonds|);
    assert bonds[..|bonds|] == bonds;
  }

  /** Two bonds of the same class keep their relative order in its list. */
  lemma SelectKeepsOrder(bonds: seq<T.Bond>, i: nat, j: nat)
    requires i < j < |bonds|
    requires ClassOf(bonds[i].kind) == ClassOf(bonds[j].kind)
    ensures Rank(bonds, i) < Rank(bonds, j)
  {
    var c := ClassOf(bonds[i].kind);
    assert bonds[..i + 1][..i] == bonds[..i];
    assert bonds[..i + 1] == bonds[..i] + [bonds[i]];
    SelectSnoc(bonds[..i], bonds[i], c);
    SelectPrefix(bonds, c, i + 1, j);
  }

  /** Selecting only drops bonds. */
  lemma {:induction false} SelectSubMultiset(bonds: seq<T.Bond>, c: BondClass)
    ensures multiset(Select(bonds, c)) <= multiset(bonds)
  {
    if bonds != [] {
      var prefix, last := bonds[..|bonds| - 1], bonds[|bonds| - 1];
      assert bonds == prefix + [last];
      SelectSubMultiset(prefix, c);
    }
  }

  /** Where a selected bond comes from. */
  lemma SelectSource(bonds: seq<T.Bond>, c: BondClass, k: nat) returns (i: nat)
    requires k < |Select(bonds, c)|
    ensures i < |bonds| && bonds[i] == Select(bonds, c)[k] && ClassOf(bonds[i].kind) == c
  {
    var s := Select(bonds, c);
    SelectSubMultiset(bonds, c);
    assert s[k] in multiset(s);
    assert s[k] in multiset(bonds);
    i :| 0 <= i < |bonds| && bonds[i] == s[k];
  }

  /** The list of class `c` is empty exactly when no bond has class `c`. */
  lemma SelectEmptyIff(bonds: seq<T.Bond>, c: BondClass)
    ensures Select(bonds, c) == [] <==> forall i :: 0 <= i < |bonds| ==> ClassOf(bonds[i].kind) != c
  {
    var s := Select(bonds, c);
    if s != [] {
      var i := SelectSource(bonds, c, 0);
    }
    if i :| 0 <= i < |bonds| && ClassOf(bonds[i].kind) == c {
      SelectRank(bonds, i);
    }
  }

  /** With no unsupported bond, the three lists share the bonds out: each
      bond goes to exactly one of them. */
  lemma {:induction false} SelectPartition(bonds: seq<T.Bond>)
    requires forall i :: 0 <= i < |bonds| ==> ClassOf(bonds[i].kind) != Unsupported
    ensures multiset(Select(bonds, OrdinaryOrder)) + multiset(Select(bonds, DativeClass)) + multiset(Select(bonds, AromaticClass))
      == multiset(bonds)
  {
    if bonds != [] {
      var prefix, last := bonds[..|bonds| - 1], bonds[|bonds| - 1];
      assert bonds == prefix + [last];
      SelectPartition(prefix);
      SelectSnoc(prefix, last, OrdinaryOrder);
      SelectSnoc(prefix, last, DativeClass);
      SelectSnoc(prefix, last, AromaticClass);
    }
  }

  // ---------------------------------------------------------------------
  // The encoded record
  // ---------------------------------------------------------------------

  /** Every bond lands in the list of its class, at its rank, with its ends
      and (for ordinary bonds) its order, 1.0 for dative bonds and no order
      for aromatic ones; the list lengths add up to the bond count. */
  lemma EncodePartition(m: T.Mol, properties: Option<map<string, Json>>)
    requires Encode(m, properties).Ok?
    ensures var r := Encode(m, properties).value;
      |OrEmpty(r.bonds)| + |OrEmpty(r.dativeBonds)| + |OrEmpty(r.aromaticBonds)| == |m.bonds|
    ensures var r := Encode(m, properties).value;
      forall i :: 0 <= i < |m.bonds| ==> var b := m.bonds[i];
        && (T.IsOrdinary(b.kind) ==>
              Rank(m.bonds, i) < |OrEmpty(r.bonds)| && OrEmpty(r.bonds)[Rank(m.bonds, i)] == Bond(b.begin, b.end, T.OrderOf(b.kind)))
        && (b.kind == T.Dative ==>
              Rank(m.bonds, i) < |OrEmpty(r.dativeBonds)| && OrEmpty(r.dativeBonds)[Rank(m.bonds, i)] == Bond(b.begin, b.end, 1.0))
        && (b.kind == T.Aromatic ==>
              Rank(m.bonds, i) < |OrEmpty(r.aromaticBonds)| && OrEmpty(r.aromaticBonds)[Rank(m.bonds, i)] == AromaticBond(b.begin, b.end))
  {
    var r := Encode(m, properties).value;
    assert OrEmpty(r.bonds) == OrdinaryBonds(m.bonds);
    assert OrEmpty(r.dativeBonds) == DativeBonds(m.bonds);
    assert OrEmpty(r.aromaticBonds) == AromaticBonds(m.bonds);
    SelectPartition(m.bonds);
    assert |multiset(m.bonds)| == |m.bonds|;
    forall i | 0 <= i < |m.bonds|
      ensures var b := m.bonds[i];
        && (T.IsOrdinary(b.kind) ==>
              Rank(m.bonds, i) < |OrEmpty(r.bonds)| && OrEmpty(r.bonds)[Rank(m.bonds, i)] == Bond(b.begin, b.end, T.OrderOf(b.kind)))
        && (b.kind == T.Dative ==>
              Rank(m.bonds, i) < |OrEmpty(r.dativeBonds)| && OrEmpty(r.dativeBonds)[Rank(m.bonds, i)] == Bond(b.begin, b.end, 1.0))
        && (b.kind == T.Aromatic ==>
              Rank(m.bonds, i) < |OrEmpty(r.aromaticBonds)| && OrEmpty(r.aromaticBonds)[Rank(m.bonds, i)] == AromaticBond(b.begin, b.end))
    {
      SelectRank(m.bonds, i);
    }
  }

  /** The atoms are stored in order with their atomic numbers and charges,
      each bond key is present exactly when some bond has its class, the
      properties are stored as given, and the conformers exactly when there
      is at least one. */
  lemma EncodeFields(m: T.Mol, properties: Option<map<string, Json>>)
    requires Encode(m, properties).Ok?
    ensures var r := Encode(m, properties).value;
      && |r.atoms| == |m.atoms|
      && (forall i :: 0 <= i < |m.atoms| ==>
            r.atoms[i].atomicNumber == m.atoms[i].atomicNumber && r.atoms[i].charge == m.atoms[i].formalCharge)
      && (r.bonds.Some? <==> exists i :: 0 <= i < |m.bonds| && T.IsOrdinary(m.bonds[i].kind))
      && (r.dativeBonds.Some? <==> exists i :: 0 <= i < |m.bonds| && m.bonds[i].kind == T.Dative)
      && (r.aromaticBonds.Some? <==> exists i :: 0 <= i < |m.bonds| && m.bonds[i].kind == T.Aromatic)
      && r.properties == properties
      && (r.conformers.Some? <==> |m.conformers| > 0)
      && (r.conformers.Some? ==> r.conformers.value == m.conformers)
  {
    SelectEmptyIff(m.bonds, OrdinaryOrder);
    SelectEmptyIff(m.bonds, DativeClass);
    SelectEmptyIff(m.bonds, AromaticClass);
  }

  // ---------------------------------------------------------------------
  // Bond lists the builder accepts
  // ---------------------------------------------------------------------

  /** One more bond keeps the pairs distinct exactly when it joins a pair no
      earlier bond joins. */
  lemma DistinctPairsSnoc(bonds: seq<T.Bond>, b: T.Bond)
    ensures T.DistinctPairs(bonds + [b]) <==>
      T.DistinctPairs(bonds) && forall k :: 0 <= k < |bonds| ==> !T.Joins(bonds[k], b.begin, b.end)
  {
    var s := bonds + [b];
    if T.DistinctPairs(s) {
      forall k, l | 0 <= k < l < |bonds|
        ensures !T.Joins(bonds[k], bonds[l].begin, bonds[l].end)
      {
        assert s[k] == bonds[k] && s[l] == bonds[l];
      }
      forall k | 0 <= k < |bonds|
        ensures !T.Joins(bonds[k], b.begin, b.end)
      {
        assert s[k] == bonds[k] && s[|bonds|] == b;
      }
    }
  }

  /** The bond requests that rebuild `bonds` one by one. */
  function Replay(bonds: seq<T.Bond>): (r: seq<BondRequest>)
    ensures |r| == |bonds|
  {
    seq(|bonds|, i requires 0 <= i < |bonds| => BondRequest(bonds[i].begin, bonds[i].end, Some(bonds[i].kind)))
  }

  /** Replaying two bond lists is replaying one and then the other. */
  lemma ReplayAppend(x: seq<T.Bond>, y: seq<T.Bond>)
    ensures Replay(x + y) == Replay(x) + Replay(y)
  {
    assert forall i :: 0 <= i < |x| ==> (x + y)[i] == x[i];
    assert forall i :: |x| <= i < |x + y| ==> (x + y)[i] == y[i - |x|];
  }

  /** Served one after the other on top of `start`, the requests of a bond
      list whose bonds join distinct atoms of the molecule, no pair twice,
      are all accepted and give that list back. */
  lemma {:induction false} AddBondsReplays(numAtoms: nat, start: seq<T.Bond>, bonds: seq<T.Bond>)
    requires T.BondsInRange(numAtoms, start + bonds)
    requires T.DistinctPairs(start + bonds)
    ensures AddBonds(numAtoms, start, Replay(bonds)) == Ok(start + bonds)
  {
    if bonds == [] {
      assert start + bonds == start;
    } else {
      var prefix, last := bonds[..|bonds| - 1], bonds[|bonds| - 1];
      assert start + bonds == (start + prefix) + [last];
      DistinctPairsSnoc(start + prefix, last);
      assert forall k :: 0 <= k < |start + prefix| ==> (start + prefix)[k] == (start + bonds)[k];
      AddBondsReplays(numAtoms, start, prefix);
      assert Replay(bonds)[..|bonds| - 1] == Replay(prefix);
      assert (start + bonds)[|start + prefix|] == last;
    }
  }

  /** What the builder holds after a run of requests that it all served: the
      bonds it started with, then one bond per request, with the requested
      ends and type. */
  lemma {:induction false} AddBondsShape(numAtoms: nat, start: seq<T.Bond>, requests: seq<BondRequest>)
    requires AddBonds(numAtoms, start, requests).Ok?
    ensures var bonds := AddBonds(numAtoms, start, requests).value;
      && |bonds| == |start| + |requests|
      && bonds[..|start|] == start
      && forall i :: 0 <= i < |requests| ==>
           bonds[|start| + i].begin == requests[i].atom1 && bonds[|start| + i].end == requests[i].atom2
           && Some(bonds[|start| + i].kind) == requests[i].kind
  {
    if requests != [] {
      var prefix := requests[..|requests| - 1];
      AddBondsShape(numAtoms, start, prefix);
      var before := AddBonds(numAtoms, start, prefix).value;
      var q := requests[|requests| - 1];
      var b := T.Bond(q.atom1, q.atom2, q.kind.value);
      assert AddBonds(numAtoms, start, requests).value == before + [b];
      forall i | 0 <= i < |requests|
        ensures (before + [b])[|start| + i].begin == requests[i].atom1 && (before + [b])[|start| + i].end == requests[i].atom2
          && Some((before + [b])[|start| + i].kind) == requests[i].kind
      {
        if i < |prefix| {
          assert prefix[i] == requests[i];
        }
      }
    }
  }

  /** Bonds the builder accepts join distinct atoms of the molecule, and no
      pair twice. */
  lemma {:induction false} AddBondsWellFormed(numAtoms: nat, start: seq<T.Bond>, requests: seq<BondRequest>)
    requires AddBonds(numAtoms, start, requests).Ok?
    requires T.BondsInRange(numAtoms, start) && T.DistinctPairs(start)
    ensures T.BondsInRange(numAtoms, AddBonds(numAtoms, start, requests).value)
    ensures T.DistinctPairs(AddBonds(numAtoms, start, requests).value)
  {
    if requests != [] {
      var prefix := requests[..|requests| - 1];
      AddBondsWellFormed(numAtoms, start, prefix);
      var before := AddBonds(numAtoms, start, prefix).value;
      var q := requests[|requests| - 1];
      DistinctPairsSnoc(before, T.Bond(q.atom1, q.atom2, q.kind.value));
    }
  }

  /** Served requests only append: the bonds the builder started with stay
      in front. */
  lemma AddBondsKeepsStart(numAtoms: nat, start: seq<T.Bond>, requests: seq<BondRequest>)
    requires AddBonds(numAtoms, start, requests).Ok?
    ensures |start| <= |AddBonds(numAtoms, start, requests).value|
    ensures forall j :: 0 <= j < |start| ==> AddBonds(numAtoms, start, requests).value[j] == start[j]
  {
    AddBondsShape(numAtoms, start, requests);
    var bonds := AddBonds(numAtoms, start, requests).value;
    assert forall j :: 0 <= j < |start| ==> bonds[..|start|][j] == bonds[j];
  }

  /** The `bonds` loop appends one bond per entry, with the type its order
      names. */
  lemma OrdinaryStage(numAtoms: nat, start: seq<T.Bond>, o: seq<Bond>)
    requires AddBonds(numAtoms, start, OrdinaryRequests(o)).Ok?
    ensures var bonds := AddBonds(numAtoms, start, OrdinaryRequests(o)).value;
      && |bonds| == |start| + |o|
      && bonds[..|start|] == start
      && forall j :: |start| <= j < |bonds| ==>
           bonds[j].begin == o[j - |start|].atom1 && bonds[j].end == o[j - |start|].atom2
           && Some(bonds[j].kind) == T.KindOfOrder(o[j - |start|].order)
  {
    AddBondsShape(numAtoms, start, OrdinaryRequests(o));
    var bonds, requests := AddBonds(numAtoms, start, OrdinaryRequests(o)).value, OrdinaryRequests(o);
    forall j | |start| <= j < |bonds|
      ensures bonds[j].begin == o[j - |start|].atom1 && bonds[j].end == o[j - |start|].atom2
        && Some(bonds[j].kind) == T.KindOfOrder(o[j - |start|].order)
    {
      assert bonds[|start| + (j - |start|)] == bonds[j];
      assert requests[j - |start|].atom1 == o[j - |start|].atom1;
    }
  }

  /** The `dative_bonds` loop appends one dative bond per entry. */
  lemma DativeStage(numAtoms: nat, start: seq<T.Bond>, d: seq<Bond>)
    requires AddBonds(numAtoms, start, DativeRequests(d)).Ok?
    ensures var bonds := AddBonds(numAtoms, start, DativeRequests(d)).value;
      && |bonds| == |start| + |d|
      && bonds[..|start|] == start
      && forall j :: |start| <= j < |bonds| ==>
           bonds[j].begin == d[j - |start|].atom1 && bonds[j].end == d[j - |start|].atom2
           && bonds[j].kind == T.Dative
  {
    AddBondsShape(numAtoms, start, DativeRequests(d));
    var bonds, requests := AddBonds(numAtoms, start, DativeRequests(d)).value, DativeRequests(d);
    forall j | |start| <= j < |bonds|
      ensures bonds[j].begin == d[j - |start|].atom1 && bonds[j].end == d[j - |start|].atom2
        && bonds[j].kind == T.Dative
    {
      assert bonds[|start| + (j - |start|)] == bonds[j];
      assert requests[j - |start|].atom1 == d[j - |start|].atom1;
    }
  }

  /** The `aromatic_bonds` loop appends one aromatic bond per entry. */
  lemma AromaticStage(numAtoms: nat, start: seq<T.Bond>, a: seq<AromaticBond>)
    requires AddBonds(numAtoms, start, AromaticRequests(a)).Ok?
    ensures var bonds := AddBonds(numAtoms, start, AromaticRequests(a)).value;
      && |bonds| == |start| + |a|
      && bonds[..|start|] == start
      && forall j :: |start| <= j < |bonds| ==>
           bonds[j].begin == a[j - |start|].atom1 && bonds[j].end == a[j - |start|].atom2
           && bonds[j].kind == T.Aromatic
  {
    AddBondsShape(numAtoms, start, AromaticRequests(a));
    var bonds, requests := AddBonds(numAtoms, start, AromaticRequests(a)).value, AromaticRequests(a);
    forall j | |start| <= j < |bonds|
      ensures bonds[j].begin == a[j - |start|].atom1 && bonds[j].end == a[j - |start|].atom2
        && bonds[j].kind == T.Aromatic
    {
      assert bonds[|start| + (j - |start|)] == bonds[j];
      assert requests[j - |start|].atom1 == a[j - |start|].atom1;
    }
  }

  // ---------------------------------------------------------------------
  // The decoded molecule
  // ---------------------------------------------------------------------

  /** The decoder's bonds come group by group, one per stored entry: first
      the `bonds` list, then `dative_bonds`, then `aromatic_bonds`. */
  lemma DecodeBondCount(mol: Molecule)
    requires DecodeBonds(mol).Ok?
    ensures |DecodeBonds(mol).value| == |OrEmpty(mol.bonds)| + |OrEmpty(mol.dativeBonds)| + |OrEmpty(mol.aromaticBonds)|
  {
    var n, o, d, a := |mol.atoms|, OrEmpty(mol.bonds), OrEmpty(mol.dativeBonds), OrEmpty(mol.aromaticBonds);
    OrdinaryStage(n, [], o);
    var b1 := AddBonds(n, [], OrdinaryRequests(o)).value;
    DativeStage(n, b1, d);
    var b2 := AddBonds(n, b1, DativeRequests(d)).value;
    AromaticStage(n, b2, a);
  }

  /** The first group: one bond per entry of `bonds`, with the stored ends
      and the type its order names. */
  lemma DecodeOrdinaryGroup(mol: Molecule)
    requires DecodeBonds(mol).Ok?
    ensures var bonds, o := DecodeBonds(mol).value, OrEmpty(mol.bonds);
      forall i :: 0 <= i < |o| ==>
        (i < |bonds| && bonds[i].begin == o[i].atom1 && bonds[i].end == o[i].atom2 && Some(bonds[i].kind) == T.KindOfOrder(o[i].order))
  {
    var n, o, d, a := |mol.atoms|, OrEmpty(mol.bonds), OrEmpty(mol.dativeBonds), OrEmpty(mol.aromaticBonds);
    OrdinaryStage(n, [], o);
    var b1 := AddBonds(n, [], OrdinaryRequests(o)).value;
    AddBondsKeepsStart(n, b1, DativeRequests(d));
    var b2 := AddBonds(n, b1, DativeRequests(d)).value;
    AddBondsKeepsStart(n, b2, AromaticRequests(a));
    assert DecodeBonds(mol).value == AddBonds(n, b2, AromaticRequests(a)).value;
  }

  /** The second group: one dative bond per entry of `dative_bonds`, with
      the stored ends, whatever order is stored. */
  lemma DecodeDativeGroup(mol: Molecule)
    requires DecodeBonds(mol).Ok?
    ensures var bonds, o, d := DecodeBonds(mol).value, OrEmpty(mol.bonds), OrEmpty(mol.dativeBonds);
      forall j :: |o| <= j < |o| + |d| ==>
        (j < |bonds| && bonds[j].begin == d[j - |o|].atom1 && bonds[j].end == d[j - |o|].atom2 && bonds[j].kind == T.Dative)
  {
    var n, o, d, a := |mol.atoms|, OrEmpty(mol.bonds), OrEmpty(mol.dativeBonds), OrEmpty(mol.aromaticBonds);
    AddBondsShape(n, [], OrdinaryRequests(o));
    var b1 := AddBonds(n, [], OrdinaryRequests(o)).value;
    DativeStage(n, b1, d);
    var b2 := AddBonds(n, b1, DativeRequests(d)).value;
    AddBondsKeepsStart(n, b2, AromaticRequests(a));
    assert DecodeBonds(mol).value == AddBonds(n, b2, AromaticRequests(a)).value;
  }

  /** The third group: one aromatic bond per entry of `aromatic_bonds`, with
      the stored ends. */
  lemma DecodeAromaticGroup(mol: Molecule)
    requires DecodeBonds(mol).Ok?
    ensures var bonds, o, d, a := DecodeBonds(mol).value, OrEmpty(mol.bonds), OrEmpty(mol.dativeBonds), OrEmpty(mol.aromaticBonds);
      forall j :: |o| + |d| <= j < |o| + |d| + |a| ==>
        (j < |bonds| && bonds[j].begin == a[j - |o| - |d|].atom1 && bonds[j].end == a[j - |o| - |d|].atom2 && bonds[j].kind == T.Aromatic)
  {
    var n, o, d, a := |mol.atoms|, OrEmpty(mol.bonds), OrEmpty(mol.dativeBonds), OrEmpty(mol.aromaticBonds);
    AddBondsShape(n, [], OrdinaryRequests(o));
    var b1 := AddBonds(n, [], OrdinaryRequests(o)).value;
    AddBondsShape(n, b1, DativeRequests(d));
    var b2 := AddBonds(n, b1, DativeRequests(d)).value;
    AromaticStage(n, b2, a);
    assert DecodeBonds(mol).value == AddBonds(n, b2, AromaticRequests(a)).value;
  }

  /** The decoder's bonds are those its bond loops leave. */
  lemma DecodeHasDecodedBonds(mol: Molecule)
    requires Decode(mol).Ok?
    ensures DecodeBonds(mol).Ok? && Decode(mol).value.bonds == DecodeBonds(mol).value
  {
  }

  /** The decoder's atoms: one per stored atom, in order, with its atomic
      number and charge, marked as having no implicit hydrogens exactly when
      some conformer positions it. */
  lemma DecodeAtoms(mol: Molecule)
    requires Decode(mol).Ok?
    ensures var atoms := Decode(mol).value.atoms;
      && |atoms| == |mol.atoms|
      && forall i :: 0 <= i < |atoms| ==>
           && atoms[i].atomicNumber == mol.atoms[i].atomicNumber
           && atoms[i].formalCharge == mol.atoms[i].charge
           && atoms[i].noImplicit == Positioned(OrEmpty(mol.conformers), i)
  {
  }

  /** The decoder's conformers: one per stored coordinate list, each with a
      position for every atom, atom `i` at the list's `i`-th coordinate and
      the remaining atoms at the origin; with no `conformers` key there are
      none. */
  lemma DecodeConformers(mol: Molecule)
    requires Decode(mol).Ok?
    ensures var conformers, stored := Decode(mol).value.conformers, OrEmpty(mol.conformers);
      && |conformers| == |stored|
      && (mol.conformers.None? ==> conformers == [])
      && forall k :: 0 <= k < |stored| ==>
           && |stored[k]| <= |mol.atoms|
           && |conformers[k]| == |mol.atoms|
           && forall i :: 0 <= i < |mol.atoms| ==> conformers[k][i] == if i < |stored[k]| then stored[k][i] else T.Origin
  {
  }

  /** The decoder builds only molecules the toolkit itself could hold. */
  lemma DecodeIsWellFormed(mol: Molecule)
    requires Decode(mol).Ok?
    ensures T.WellFormed(Decode(mol).value)
  {
    var n, o, d, a := |mol.atoms|, OrEmpty(mol.bonds), OrEmpty(mol.dativeBonds), OrEmpty(mol.aromaticBonds);
    AddBondsWellFormed(n, [], OrdinaryRequests(o));
    var b1 := AddBonds(n, [], OrdinaryRequests(o)).value;
    AddBondsWellFormed(n, b1, DativeRequests(d));
    var b2 := AddBonds(n, b1, DativeRequests(d)).value;
    AddBondsWellFormed(n, b2, AromaticRequests(a));
    DecodeHasDecodedBonds(mol);
  }

  // ---------------------------------------------------------------------
  // When decoding fails
  // ---------------------------------------------------------------------

  /** Two requests name the same two atoms, in either order. */
  predicate SameEnds(p: BondRequest, q: BondRequest)
  {
    (p.atom1 == q.atom1 && p.atom2 == q.atom2) || (p.atom1 == q.atom2 && p.atom2 == q.atom1)
  }

  /** Request `k` names a bond type and two distinct atoms of the molecule
      that neither a bond already present nor an earlier request joins. */
  ghost predicate AcceptableAt(numAtoms: nat, start: seq<T.Bond>, requests: seq<BondRequest>, k: nat)
    requires k < |requests|
  {
    var q := requests[k];
    && q.kind.Some?
    && 0 <= q.atom1 < numAtoms && 0 <= q.atom2 < numAtoms && q.atom1 != q.atom2
    && (forall j :: 0 <= j < |start| ==> !T.Joins(start[j], q.atom1, q.atom2))
    && (forall j :: 0 <= j < k ==> !SameEnds(requests[j], q))
  }

  /** Every request is acceptable. */
  ghost predicate Acceptable(numAtoms: nat, start: seq<T.Bond>, requests: seq<BondRequest>)
  {
    forall k :: 0 <= k < |requests| ==> AcceptableAt(numAtoms, start, requests, k)
  }

  /** The builder serves a run of requests exactly when each of them is
      acceptable. */
  lemma {:induction false} AddBondsOkIff(numAtoms: nat, start: seq<T.Bond>, requests: seq<BondRequest>)
    ensures AddBonds(numAtoms, start, requests).Ok? <==> Acceptable(numAtoms, start, requests)
  {
    if requests != [] {
      var prefix, q := requests[..|requests| - 1], requests[|requests| - 1];
      AddBondsOkIff(numAtoms, start, prefix);
      forall k | 0 <= k < |prefix|
        ensures AcceptableAt(numAtoms, start, requests, k) == AcceptableAt(numAtoms, start, prefix, k)
      {
        assert forall j :: 0 <= j <= k ==> prefix[j] == requests[j];
      }
      if AddBonds(numAtoms, start, prefix).Ok? {
        AddBondsShape(numAtoms, start, prefix);
        var bonds := AddBonds(numAtoms, start, prefix).value;
        forall j | 0 <= j < |bonds|
          ensures T.Joins(bonds[j], q.atom1, q.atom2) ==
            if j < |start| then T.Joins(start[j], q.atom1, q.atom2) else SameEnds(prefix[j - |start|], q)
        {
          if j < |start| {
            assert bonds[..|start|][j] == bonds[j];
          }
        }
        if T.CanAddBond(numAtoms, bonds, q.atom1, q.atom2) && q.kind.Some? {
          forall j | 0 <= j < |prefix|
            ensures !SameEnds(requests[j], q)
          {
            assert !T.Joins(bonds[|start| + j], q.atom1, q.atom2);
          }
          assert AcceptableAt(numAtoms, start, requests, |prefix|);
        }
        if AcceptableAt(numAtoms, start, requests, |prefix|) {
          forall j | 0 <= j < |bonds|
            ensures !T.Joins(bonds[j], q.atom1, q.atom2)
          {
            if j >= |start| {
              assert prefix[j - |start|] == requests[j - |start|];
            }
          }
        }
      }
    }
  }

  /** All the bond requests of a record, in the order the decoder makes
      them. */
  function AllRequests(mol: Molecule): seq<BondRequest>
  {
    OrdinaryRequests(OrEmpty(mol.bonds)) + DativeRequests(OrEmpty(mol.dativeBonds)) + AromaticRequests(OrEmpty(mol.aromaticBonds))
  }

  /** Decoding succeeds exactly when every bond request is acceptable (a
      stored order names a bond type, the ends are distinct atoms of the
      molecule, no two bonds join the same pair) and no conformer has more
      coordinates than there are atoms. */
  lemma DecodeOkIff(mol: Molecule)
    ensures Decode(mol).Ok? <==>
      && Acceptable(|mol.atoms|, [], AllRequests(mol))
      && forall k :: 0 <= k < |OrEmpty(mol.conformers)| ==> |OrEmpty(mol.conformers)[k]| <= |mol.atoms|
  {
    DecodeBondsAsOneRun(mol);
    AddBondsOkIff(|mol.atoms|, [], AllRequests(mol));
  }

  /** A failed run that reports an invalid bond order has a request naming
      no bond type. */
  lemma {:induction false} AddBondsInvalidOrderCause(numAtoms: nat, start: seq<T.Bond>, requests: seq<BondRequest>)
    requires AddBonds(numAtoms, start, requests) == Err(InvalidBondOrder)
    ensures exists k :: 0 <= k < |requests| && requests[k].kind.None?
  {
    var prefix := requests[..|requests| - 1];
    if AddBonds(numAtoms, start, prefix).Err? {
      AddBondsInvalidOrderCause(numAtoms, start, prefix);
      var k :| 0 <= k < |prefix| && prefix[k].kind.None?;
      assert requests[k] == prefix[k];
    } else {
      assert requests[|requests| - 1].kind.None?;
    }
  }

  /** The bond loops only ever raise for a bond: an invalid order or a bond
      the builder refuses. */
  lemma {:induction false} AddBondsErrorKinds(numAtoms: nat, start: seq<T.Bond>, requests: seq<BondRequest>)
    ensures AddBonds(numAtoms, start, requests).Err? ==>
      AddBonds(numAtoms, start, requests).error in {InvalidBondOrder, BondRejected}
  {
    if requests != [] {
      AddBondsErrorKinds(numAtoms, start, requests[..|requests| - 1]);
    }
  }

  /** What each decoding error points at: an invalid bond order at an entry
      of `bonds` whose order names no bond type; a conformer count mismatch
      at a coordinate list longer than the atom list, all bonds having been
      added. */
  lemma DecodeErrorCauses(mol: Molecule)
    ensures Decode(mol) == Err(InvalidBondOrder) ==>
      exists i :: 0 <= i < |OrEmpty(mol.bonds)| && T.KindOfOrder(OrEmpty(mol.bonds)[i].order).None?
    ensures Decode(mol) == Err(ConformerAtomCountMismatch) ==>
      && Acceptable(|mol.atoms|, [], AllRequests(mol))
      && exists k :: 0 <= k < |OrEmpty(mol.conformers)| && |OrEmpty(mol.conformers)[k]| > |mol.atoms|
  {
    DecodeBondsAsOneRun(mol);
    var requests := AllRequests(mol);
    var o := OrEmpty(mol.bonds);
    if Decode(mol) == Err(InvalidBondOrder) {
      AddBondsInvalidOrderCause(|mol.atoms|, [], requests);
      var k :| 0 <= k < |requests| && requests[k].kind.None?;
      assert k < |o| && T.KindOfOrder(o[k].order).None?;
    }
    if Decode(mol) == Err(ConformerAtomCountMismatch) {
      AddBondsOkIff(|mol.atoms|, [], requests);
      AddBondsErrorKinds(|mol.atoms|, [], requests);
      var base := T.Mol(BaseAtoms(mol), DecodeBonds(mol).value, []);
      assert WithConformers(base, OrEmpty(mol.conformers)).Err?;
      assert |base.atoms| == |mol.atoms|;
    }
  }

  // ---------------------------------------------------------------------
  // Round trip
  // ---------------------------------------------------------------------

  /** Two bond lists can be put one after the other without repeating a
      pair exactly when each repeats none and no bond of the first joins
      the ends of a bond of the second. */
  lemma DistinctPairsAppend(a: seq<T.Bond>, b: seq<T.Bond>)
    ensures T.DistinctPairs(a + b) <==>
      && T.DistinctPairs(a)
      && T.DistinctPairs(b)
      && Apart(a, b)
  {
    var s := a + b;
    if T.DistinctPairs(s) {
      forall k, l | 0 <= k < l < |a|
        ensures !T.Joins(a[k], a[l].begin, a[l].end)
      {
        assert s[k] == a[k] && s[l] == a[l];
      }
      forall k, l | 0 <= k < l < |b|
        ensures !T.Joins(b[k], b[l].begin, b[l].end)
      {
        assert s[|a| + k] == b[k] && s[|a| + l] == b[l];
      }
      forall k, l | 0 <= k < |a| && 0 <= l < |b|
        ensures !T.Joins(a[k], b[l].begin, b[l].end)
      {
        assert s[k] == a[k] && s[|a| + l] == b[l];
      }
    }
  }

  /** Keeping only the bonds of one class repeats no pair the molecule does
      not repeat. */
  lemma {:induction false} SelectDistinctPairs(bonds: seq<T.Bond>, c: BondClass)
    requires T.DistinctPairs(bonds)
    ensures T.DistinctPairs(Select(bonds, c))
  {
    if bonds != [] {
      var prefix, last := bonds[..|bonds| - 1], bonds[|bonds| - 1];
      assert bonds == prefix + [last];
      DistinctPairsSnoc(prefix, last);
      SelectDistinctPairs(prefix, c);
      SelectSnoc(prefix, last, c);
      var s := Select(prefix, c);
      forall k | 0 <= k < |s|
        ensures !T.Joins(s[k], last.begin, last.end)
      {
        var i := SelectSource(prefix, c, k);
      }
      DistinctPairsSnoc(s, last);
    }
  }

  /** In bonds that repeat no pair, two different bonds never join the same
      two atoms, whichever comes first. */
  lemma DistinctPairsAt(bonds: seq<T.Bond>, i: nat, j: nat)
    requires T.DistinctPairs(bonds)
    requires i < |bonds| && j < |bonds| && i != j
    ensures !T.Joins(bonds[i], bonds[j].begin, bonds[j].end)
  {
    if j < i {
      assert !T.Joins(bonds[j], bonds[i].begin, bonds[i].end);
    }
  }

  /** No bond of `a` joins the ends of a bond of `b`. */
  ghost predicate Apart(a: seq<T.Bond>, b: seq<T.Bond>)
  {
    forall k, l :: 0 <= k < |a| && 0 <= l < |b| ==> !T.Joins(a[k], b[l].begin, b[l].end)
  }

  /** Two bonds of different classes never join the same pair. */
  lemma SelectAcrossClasses(bonds: seq<T.Bond>, c1: BondClass, c2: BondClass)
    requires T.DistinctPairs(bonds) && c1 != c2
    ensures Apart(Select(bonds, c1), Select(bonds, c2))
  {
    var s1, s2 := Select(bonds, c1), Select(bonds, c2);
    forall k, l | 0 <= k < |s1| && 0 <= l < |s2|
      ensures !T.Joins(s1[k], s2[l].begin, s2[l].end)
    {
      var i := SelectSource(bonds, c1, k);
      var j := SelectSource(bonds, c2, l);
      DistinctPairsAt(bonds, i, j);
    }
  }

  /** Bonds kept by a selection stay between distinct atoms of the
      molecule. */
  lemma SelectInRange(numAtoms: nat, bonds: seq<T.Bond>, c: BondClass)
    requires T.BondsInRange(numAtoms, bonds)
    ensures T.BondsInRange(numAtoms, Select(bonds, c))
  {
    var s := Select(bonds, c);
    forall k | 0 <= k < |s|
      ensures s[k].begin < numAtoms && s[k].end < numAtoms && s[k].begin != s[k].end
    {
      var i := SelectSource(bonds, c, k);
    }
  }

  /** The decoder reads the encoder's `bonds` list back as the ordinary
      bonds themselves: every stored order names its bond type again. */
  lemma OrdinaryRequestsReplay(s: seq<T.Bond>)
    requires forall i :: 0 <= i < |s| ==> ClassOf(s[i].kind) == OrdinaryOrder
    ensures OrdinaryRequests(JsonBonds(s)) == Replay(s)
  {
    forall i | 0 <= i < |s|
      ensures OrdinaryRequests(JsonBonds(s))[i] == Replay(s)[i]
    {
      T.KindOfOrderInvertsOrderOf(s[i].kind);
    }
  }

  /** The decoder reads the encoder's `dative_bonds` list back as the
      dative bonds themselves. */
  lemma DativeRequestsReplay(s: seq<T.Bond>)
    requires forall i :: 0 <= i < |s| ==> ClassOf(s[i].kind) == DativeClass
    ensures DativeRequests(JsonBonds(s)) == Replay(s)
  {
    assert forall i :: 0 <= i < |s| ==> DativeRequests(JsonBonds(s))[i] == Replay(s)[i];
  }

  /** The decoder reads the encoder's `aromatic_bonds` list back as the
      aromatic bonds themselves. */
  lemma AromaticRequestsReplay(s: seq<T.Bond>)
    requires forall i :: 0 <= i < |s| ==> ClassOf(s[i].kind) == AromaticClass
    ensures AromaticRequests(AromaticRecords(s)) == Replay(s)
  {
    assert forall i :: 0 <= i < |s| ==> AromaticRequests(AromaticRecords(s))[i] == Replay(s)[i];
  }

  /** Running the bond loop over two request lists one after the other is
      one run over both. */
  lemma {:induction false} AddBondsAppend(numAtoms: nat, start: seq<T.Bond>, x: seq<BondRequest>, y: seq<BondRequest>)
    ensures AddBonds(numAtoms, start, x + y) ==
      match AddBonds(numAtoms, start, x)
      case Err(e) => Err(e)
      case Ok(bonds) => AddBonds(numAtoms, bonds, y)
  {
    if y == [] {
      assert x + y == x;
    } else {
      assert (x + y)[..|x + y| - 1] == x + y[..|y| - 1];
      AddBondsAppend(numAtoms, start, x, y[..|y| - 1]);
    }
  }

  /** The decoder's three bond loops act as one run over all the requests,
      ordinary first, then dative, then aromatic. */
  lemma DecodeBondsAsOneRun(mol: Molecule)
    ensures DecodeBonds(mol) == AddBonds(|mol.atoms|, [],
      OrdinaryRequests(OrEmpty(mol.bonds)) + DativeRequests(OrEmpty(mol.dativeBonds)) + AromaticRequests(OrEmpty(mol.aromaticBonds)))
  {
    var n, o, d, a := |mol.atoms|, OrdinaryRequests(OrEmpty(mol.bonds)), DativeRequests(OrEmpty(mol.dativeBonds)), AromaticRequests(OrEmpty(mol.aromaticBonds));
    AddBondsAppend(n, [], o + d, a);
    AddBondsAppend(n, [], o, d);
  }

  /** The bonds in the order the decoder adds them: ordinary, dative,
      aromatic, each group in bond-index order. */
  function Regrouped(bonds: seq<T.Bond>): seq<T.Bond>
  {
    Select(bonds, OrdinaryOrder) + Select(bonds, DativeClass) + Select(bonds, AromaticClass)
  }

  /** Three bond lists put one after the other repeat no pair when none
      does on its own and no two of them share a pair. */
  lemma DistinctPairsAppend3(o: seq<T.Bond>, d: seq<T.Bond>, a: seq<T.Bond>)
    requires T.DistinctPairs(o) && T.DistinctPairs(d) && T.DistinctPairs(a)
    requires Apart(o, d) && Apart(o, a) && Apart(d, a)
    ensures T.DistinctPairs(o + d + a)
  {
    DistinctPairsAppend(o, d);
    forall k, l | 0 <= k < |o + d| && 0 <= l < |a|
      ensures !T.Joins((o + d)[k], a[l].begin, a[l].end)
    {
      if k < |o| {
        assert (o + d)[k] == o[k];
      } else {
        assert (o + d)[k] == d[k - |o|];
      }
    }
    DistinctPairsAppend(o + d, a);
  }

  /** Regrouping keeps every bond between distinct atoms of the molecule. */
  lemma RegroupedInRange(numAtoms: nat, bonds: seq<T.Bond>)
    requires T.BondsInRange(numAtoms, bonds)
    ensures T.BondsInRange(numAtoms, Regrouped(bonds))
  {
    var o, d, a := Select(bonds, OrdinaryOrder), Select(bonds, DativeClass), Select(bonds, AromaticClass);
    SelectInRange(numAtoms, bonds, OrdinaryOrder);
    SelectInRange(numAtoms, bonds, DativeClass);
    SelectInRange(numAtoms, bonds, AromaticClass);
    var r := o + d + a;
    forall k | 0 <= k < |r|
      ensures r[k].begin < numAtoms && r[k].end < numAtoms && r[k].begin != r[k].end
    {
      if k < |o| {
        assert r[k] == o[k];
      } else if k < |o| + |d| {
        assert r[k] == d[k - |o|];
      } else {
        assert r[k] == a[k - |o| - |d|];
      }
    }
  }

  /** Regrouping the bonds of a molecule repeats no pair the molecule does
      not repeat. */
  lemma RegroupedDistinctPairs(bonds: seq<T.Bond>)
    requires T.DistinctPairs(bonds)
    ensures T.DistinctPairs(Regrouped(bonds))
  {
    SelectDistinctPairs(bonds, OrdinaryOrder);
    SelectDistinctPairs(bonds, DativeClass);
    SelectDistinctPairs(bonds, AromaticClass);
    SelectAcrossClasses(bonds, OrdinaryOrder, DativeClass);
    SelectAcrossClasses(bonds, OrdinaryOrder, AromaticClass);
    SelectAcrossClasses(bonds, DativeClass, AromaticClass);
    DistinctPairsAppend3(Select(bonds, OrdinaryOrder), Select(bonds, DativeClass), Select(bonds, AromaticClass));
  }

  /** What the encoder stores under each key, with an absent key read as
      empty. */
  lemma EncodedLists(m: T.Mol, properties: Option<map<string, Json>>)
    requires Encode(m, properties).Ok?
    ensures var mol := Encode(m, properties).value;
      && OrEmpty(mol.bonds) == JsonBonds(Select(m.bonds, OrdinaryOrder))
      && OrEmpty(mol.dativeBonds) == JsonBonds(Select(m.bonds, DativeClass))
      && OrEmpty(mol.aromaticBonds) == AromaticRecords(Select(m.bonds, AromaticClass))
      && OrEmpty(mol.conformers) == m.conformers
      && |mol.atoms| == |m.atoms|
  {
  }

  /** The bond loops of the decoder, run on the encoded record of a
      molecule the toolkit could hold, add back every bond, regrouped. */
  lemma DecodeBondsOfEncoded(m: T.Mol, properties: Option<map<string, Json>>)
    requires T.WellFormed(m) && Encode(m, properties).Ok?
    ensures DecodeBonds(Encode(m, properties).value) == Ok(Regrouped(m.bonds))
  {
    var mol := Encode(m, properties).value;
    var o, d, a := Select(m.bonds, OrdinaryOrder), Select(m.bonds, DativeClass), Select(m.bonds, AromaticClass);
    EncodedLists(m, properties);
    OrdinaryRequestsReplay(o);
    DativeRequestsReplay(d);
    AromaticRequestsReplay(a);
    DecodeBondsAsOneRun(mol);
    ReplayAppend(o, d);
    ReplayAppend(o + d, a);
    RegroupedInRange(|m.atoms|, m.bonds);
    RegroupedDistinctPairs(m.bonds);
    assert [] + Regrouped(m.bonds) == Regrouped(m.bonds);
    AddBondsReplays(|m.atoms|, [], Regrouped(m.bonds));
  }

  /** Decoding what the encoder wrote for a molecule the toolkit could hold
      succeeds, with the bonds regrouped. */
  lemma DecodeOfEncodedBonds(m: T.Mol, properties: Option<map<string, Json>>)
    requires T.WellFormed(m) && Encode(m, properties).Ok?
    ensures Decode(Encode(m, properties).value).Ok?
    ensures Decode(Encode(m, properties).value).value.bonds == Regrouped(m.bonds)
  {
    var mol := Encode(m, properties).value;
    DecodeBondsOfEncoded(m, properties);
    EncodedLists(m, properties);
    assert !exists k :: 0 <= k < |m.conformers| && |m.conformers[k]| > |m.atoms|;
  }

  /** The decoded atoms of an encoded molecule are its own atoms, marked as
      having no implicit hydrogens exactly when there is a conformer. */
  lemma DecodeOfEncodedAtoms(m: T.Mol, properties: Option<map<string, Json>>)
    requires T.WellFormed(m) && Encode(m, properties).Ok?
    requires Decode(Encode(m, properties).value).Ok?
    ensures var r := Decode(Encode(m, properties).value).value;
      && |r.atoms| == |m.atoms|
      && forall i :: 0 <= i < |m.atoms| ==> r.atoms[i] == m.atoms[i].(noImplicit := |m.conformers| > 0)
  {
    var mol := Encode(m, properties).value;
    EncodedLists(m, properties);
    EncodeFields(m, properties);
    DecodeAtoms(mol);
    var r := Decode(mol).value;
    forall i | 0 <= i < |m.atoms|
      ensures r.atoms[i] == m.atoms[i].(noImplicit := |m.conformers| > 0)
    {
      if |m.conformers| > 0 {
        assert i < |m.conformers[0]|;
      }
    }
  }

  /** The decoded conformers of an encoded molecule are its own. */
  lemma DecodeOfEncodedConformers(m: T.Mol, properties: Option<map<string, Json>>)
    requires T.WellFormed(m) && Encode(m, properties).Ok?
    requires Decode(Encode(m, properties).value).Ok?
    ensures Decode(Encode(m, properties).value).value.conformers == m.conformers
  {
    var mol := Encode(m, properties).value;
    EncodedLists(m, properties);
    DecodeConformers(mol);
    var r := Decode(mol).value;
    forall k | 0 <= k < |m.conformers|
      ensures r.conformers[k] == m.conformers[k]
    {
    }
  }

  /** Decoding what the encoder wrote for a molecule the toolkit could hold
      succeeds and gives back its atoms (atomic numbers and charges, each
      marked as having no implicit hydrogens exactly when there is a
      conformer), every bond (regrouped ordinary, dative, aromatic, so the
      same bonds counted with multiplicity) and its conformers. */
  lemma RoundTrip(m: T.Mol, properties: Option<map<string, Json>>)
    requires T.WellFormed(m) && Encode(m, properties).Ok?
    ensures Decode(Encode(m, properties).value).Ok?
    ensures var r := Decode(Encode(m, properties).value).value;
      && |r.atoms| == |m.atoms|
      && (forall i :: 0 <= i < |m.atoms| ==> r.atoms[i] == m.atoms[i].(noImplicit := |m.conformers| > 0))
      && r.bonds == Regrouped(m.bonds)
      && multiset(r.bonds) == multiset(m.bonds)
      && r.conformers == m.conformers
  {
    DecodeOfEncodedBonds(m, properties);
    SelectPartition(m.bonds);
    DecodeOfEncodedAtoms(m, properties);
    DecodeOfEncodedConformers(m, properties);
  }
}
