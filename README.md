# atomlite, modelled in Dafny

atomlite stores molecules in an SQLite table as JSON. This project models its
two core pieces.

- **The molecule codec** (`src/atomlite/_internal/json.py`):
  - The encoder turns a toolkit (RDKit) molecule into the JSON molecule record. The record holds:
    - the atoms (atomic number and charge);
    - three optional bond lists: `bonds` for ordinary orders, `dative_bonds` and `aromatic_bonds`;
    - optional `properties`;
    - optional `conformers` (coordinate lists).
  - The decoder builds a toolkit molecule back from a record.
  - An `Entry` pairs a key with the record as JSON text.
- **The database** (`src/atomlite/_internal/database.py`): a connection and the name of its molecule table.
  - Opening the database creates the table with `key TEXT PRIMARY KEY` if it is absent.
  - `add_molecules` inserts entries with `executemany`.
  - `get_molecules` selects the rows whose key is in a list of `?` placeholders.

The files are:

- `wrappers.dfy`: the `Option` and `Result` types. They stand for Python's `None` and for raised exceptions.
- `toolkit.dfy`: the part of the toolkit that the codec talks to:
  - bond types, atoms, bonds, conformers;
  - the `EditableMol` class, whose `AddAtom` and `AddBond` append to its fields in place. The bond builder refuses:
    - an end that is not an atom;
    - a bond from an atom to itself;
    - a second bond between the same two atoms.
- `molecule_json.dfy`: the record types and the codec.
  - The encoder is specified by the function `Encode`. It is implemented by the methods `SortBonds` (the one-pass bond loop) and `FromRdkit`.
  - The decoder is specified by `Decode`. It is implemented by the methods `ToRdkit`, the three bond loops and `AddConformers`. These work on an `EditableMol`.
- `round_trip.dfy`: what the codec promises:
  - how bonds are partitioned and ordered;
  - when each optional key is present;
  - what decoding yields and exactly when it fails;
  - the round trip: decoding an encoded molecule gives back its atoms, its conformers and the same multiset of bonds.
- `database.dfy`: the `Connection` class, which holds the tables as a map updated in place, and the `Database` class. Lemmas relate inserting to retrieving.

The record's bond lists are lists of `(atom1, atom2, order)` records, as json.py:14-17 and 80-98 build them.

The encoder's match misspells the half-order bond types and the dative bond type, so as written every bond other than SINGLE…HEXTUPLE makes it raise (see Findings). The code as written is modelled by `EncodeAsWritten`. The rest of the model uses the corrected encoder, which stores half-order, dative and aromatic bonds as intended.

## Model

| member | source | states |
|---|---|---|
| Toolkit.KindOfOrder | src/atomlite/_internal/json.py:131-136 | A stored order is read back as the ordinary bond type with exactly that order. When no ordinary type has that order, the result is None. |
| Toolkit.KindOfOrderInvertsOrderOf | src/atomlite/_internal/json.py:80-86 | Reading back the order written for any ordinary bond type gives that same type. |
| Toolkit.EditableMol.constructor | src/atomlite/_internal/json.py:125 | The builder starts with no atoms and no bonds. |
| Toolkit.EditableMol.AddAtom | src/atomlite/_internal/json.py:126-129 | The atom is appended and the bonds are unchanged. The new atom's index is the old atom count. |
| Toolkit.EditableMol.AddBond | src/atomlite/_internal/json.py:132-136 | The bond is accepted exactly when both ends are atoms, the ends differ and no bond joins the pair yet. An accepted bond is appended; otherwise nothing changes. |
| MoleculeJson.ClassOf | src/atomlite/_internal/json.py:66-100 | A bond type is classified as ordinary exactly when it is one of the eleven order types, as dative exactly when it is dative, and as aromatic exactly when it is aromatic. Every other type is unsupported. |
| MoleculeJson.SortBonds | src/atomlite/_internal/json.py:62-100 | The loop succeeds exactly when no bond is of an unsupported type. It then returns the three bond lists that the encoder specifies. |
| MoleculeJson.FromRdkit | src/atomlite/_internal/json.py:58-121 | The result is the encoder's specified record. It fails exactly when some bond has an unsupported type, and then with `UnsupportedBondType`. |
| MoleculeJson.HalfOrderRejectedAsWritten | src/atomlite/_internal/json.py:74-86 | Takes two carbons joined by one bond of order 1.5. The encoder as written raises on it. The corrected encoder stores the bond in `bonds` with order 1.5. |
| MoleculeJson.DativeCaseRejectedAsWritten | src/atomlite/_internal/json.py:87-94 | Takes a molecule with one dative Cl–Fe bond. The encoder as written raises on it. The corrected encoder stores the bond in `dative_bonds` with order 1.0. |
| MoleculeJson.EntryFromRdkit | src/atomlite/_internal/json.py:38-47 | The properties default to none. Making an entry fails exactly when the encoder fails. Otherwise the entry holds the key, and its text parses back to the encoded record. |
| MoleculeJson.AddBondsErrorSticks | src/atomlite/_internal/json.py:131-148 | Once a bond request has raised, the later requests change nothing. |
| MoleculeJson.Placed | src/atomlite/_internal/json.py:154-156 | A fresh conformer after its first atoms are placed has one position per atom. Placed atoms get their stored coordinate; the rest stay at the origin. |
| MoleculeJson.AddRequestedBond | src/atomlite/_internal/json.py:132-136 | Serving one request extends the specified bond run by that request, or ends the run. The error is `InvalidBondOrder` for an unreadable order and `BondRejected` otherwise. |
| MoleculeJson.AddOrdinaryBonds | src/atomlite/_internal/json.py:131-136 | The `bonds` loop leaves the builder holding the specified bonds, or reports the first error. Each bond is added with the type its stored order names. |
| MoleculeJson.AddDativeBonds | src/atomlite/_internal/json.py:137-142 | The `dative_bonds` loop adds every bond as dative, whatever order is stored, or reports the first rejection. |
| MoleculeJson.AddAromaticBonds | src/atomlite/_internal/json.py:143-148 | The `aromatic_bonds` loop adds every bond as aromatic, or reports the first rejection. |
| MoleculeJson.AddConformers | src/atomlite/_internal/json.py:151-158 | Adds one conformer per stored coordinate list and marks each placed atom as having no implicit hydrogens. A list longer than the atom count raises `ConformerAtomCountMismatch`. |
| MoleculeJson.ToRdkit | src/atomlite/_internal/json.py:124-159 | The decoder's result (molecule or error) is the specified `Decode`. |
| RoundTrip.SelectAppend | src/atomlite/_internal/json.py:65-100 | Sorting two runs of bonds one after the other gives each list for the first run followed by that list for the second. |
| RoundTrip.SelectRank | src/atomlite/_internal/json.py:65-98 | Every bond appears in its class's list, at its rank among the earlier bonds of that class. |
| RoundTrip.SelectKeepsOrder | src/atomlite/_internal/json.py:65-98 | Two bonds of the same class keep their relative order in that class's list. |
| RoundTrip.SelectSubMultiset | src/atomlite/_internal/json.py:65-98 | Each class's list holds only bonds of the molecule, with no repeats beyond the molecule's own. |
| RoundTrip.SelectEmptyIff | src/atomlite/_internal/json.py:108-113 | A class's list is empty exactly when no bond belongs to that class. |
| RoundTrip.SelectPartition | src/atomlite/_internal/json.py:62-100 | When every bond is supported, the three lists together hold exactly the molecule's bonds, as multisets. |
| RoundTrip.EncodePartition | src/atomlite/_internal/json.py:62-113 | The three stored lists have as many records as the molecule has bonds. Each bond is stored at its rank: an ordinary bond with its order, a dative bond with order 1.0, an aromatic bond without an order. |
| RoundTrip.EncodeFields | src/atomlite/_internal/json.py:102-121 | The atoms keep their atomic numbers and charges. A bond key is present exactly when a bond of that class exists. `properties` is stored as given. `conformers` is present exactly when the molecule has a conformer, and holds the coordinates. |
| RoundTrip.AddBondsShape | src/atomlite/_internal/json.py:131-148 | A successful run of bond requests keeps the earlier bonds and appends one bond per request, with that request's ends and type. |
| RoundTrip.AddBondsWellFormed | src/atomlite/_internal/json.py:131-148 | A successful run keeps every bond between two distinct atoms of the molecule, and keeps every atom pair joined at most once. |
| RoundTrip.AddBondsReplays | src/atomlite/_internal/json.py:131-148 | Replaying the bonds of a well-formed molecule through the builder rebuilds exactly those bonds. |
| RoundTrip.AddBondsAppend | src/atomlite/_internal/json.py:131-148 | Running two runs of requests in a row is the first run followed by the second, starting from where the first ended. |
| RoundTrip.DecodeBondsAsOneRun | src/atomlite/_internal/json.py:131-148 | The decoder's three bond loops are one run over the ordinary, then dative, then aromatic requests. |
| RoundTrip.DecodeBondCount | src/atomlite/_internal/json.py:131-148 | A decoded molecule has one bond per stored bond record. |
| RoundTrip.DecodeOrdinaryGroup | src/atomlite/_internal/json.py:131-136 | The first decoded bonds are the `bonds` records, in order, with the types their orders name. |
| RoundTrip.DecodeDativeGroup | src/atomlite/_internal/json.py:137-142 | The next decoded bonds are the `dative_bonds` records, in order, all dative. |
| RoundTrip.DecodeAromaticGroup | src/atomlite/_internal/json.py:143-148 | The last decoded bonds are the `aromatic_bonds` records, in order, all aromatic. |
| RoundTrip.DecodeHasDecodedBonds | src/atomlite/_internal/json.py:150 | A decoded molecule's bonds are exactly those the three bond loops built. |
| RoundTrip.DecodeAtoms | src/atomlite/_internal/json.py:126-157 | The decoded atoms have the stored atomic numbers and charges. An atom is marked as having no implicit hydrogens exactly when some conformer gives it a position. |
| RoundTrip.DecodeConformers | src/atomlite/_internal/json.py:151-158 | There is one decoded conformer per stored coordinate list, and none when the key is absent. Each has one position per atom: the stored coordinate, or the origin past the end of the list. |
| RoundTrip.DecodeIsWellFormed | src/atomlite/_internal/json.py:124-159 | Every molecule the decoder returns is well formed: each bond joins two distinct atoms, no pair is joined twice, and each conformer has one position per atom. |
| RoundTrip.AddBondsOkIff | src/atomlite/_internal/json.py:131-148 | A run of bond requests succeeds exactly when every request names a bond type, joins two distinct atoms and is not joined to an earlier pair. |
| RoundTrip.DecodeOkIff | src/atomlite/_internal/json.py:124-159 | Decoding succeeds exactly when all bond requests are acceptable and no conformer has more coordinates than there are atoms. |
| RoundTrip.AddBondsInvalidOrderCause | src/atomlite/_internal/json.py:131-136 | An `InvalidBondOrder` error comes from a request whose order names no bond type. |
| RoundTrip.AddBondsErrorKinds | src/atomlite/_internal/json.py:131-148 | The bond loops raise only `InvalidBondOrder` or `BondRejected`. |
| RoundTrip.DecodeErrorCauses | src/atomlite/_internal/json.py:131-158 | `InvalidBondOrder` means some `bonds` record has an order that names no type. `ConformerAtomCountMismatch` means the bonds were all acceptable and some conformer is longer than the atom list. |
| RoundTrip.SelectDistinctPairs | src/atomlite/_internal/json.py:65-98 | A class's list of a molecule with no doubly joined pair has no doubly joined pair either. |
| RoundTrip.SelectAcrossClasses | src/atomlite/_internal/json.py:65-98 | The lists of two different classes never join the same atom pair. |
| RoundTrip.DecodeBondsOfEncoded | src/atomlite/_internal/json.py:58-148 | Decoding the bonds of an encoded well-formed molecule gives its ordinary bonds, then its dative bonds, then its aromatic bonds, each group in the original order. |
| RoundTrip.DecodeOfEncodedAtoms | src/atomlite/_internal/json.py:102-157 | Decoding an encoded well-formed molecule gives back its atoms. Only the no-implicit-hydrogens mark changes: it is set when the molecule has a conformer. |
| RoundTrip.DecodeOfEncodedConformers | src/atomlite/_internal/json.py:116-158 | Decoding an encoded well-formed molecule gives back its conformers exactly. |
| RoundTrip.RoundTrip | tests/test_json_serde.py:5-26 | Take a well-formed molecule with only supported bonds. Decoding its encoding succeeds and gives back its atoms (up to the no-implicit-hydrogens mark) and its conformers. It also gives back the same multiset of bonds, regrouped by class with the order kept within each class. |
| MoleculeDb.InsertedStopsAtConflict | src/atomlite/_internal/database.py:59-62 | After an insert violates the primary key, no later row of the batch is inserted. |
| MoleculeDb.InsertedShape | src/atomlite/_internal/database.py:59-62 | After a batch, the table is the old rows followed by the batch's rows up to the first conflict. Without a conflict the whole batch is added. A conflict names the key of the first row whose key was already present. |
| MoleculeDb.InsertedKeepsUniqueKeys | src/atomlite/_internal/database.py:41-42 | Inserting never makes two rows share a key. |
| MoleculeDb.InsertSucceedsIff | src/atomlite/_internal/database.py:59-62 | A batch goes in without a conflict exactly when its keys are distinct and none is already stored. |
| MoleculeDb.PlaceholdersShape | src/atomlite/_internal/database.py:90 | The placeholder list for n keys is empty for n = 0. Otherwise it has 2n − 1 characters, alternating `?` and `,`. |
| MoleculeDb.PlaceholdersCount | src/atomlite/_internal/database.py:89-95 | The placeholder list has exactly one `?` per key passed to the query. |
| MoleculeDb.RetrievedMembers | src/atomlite/_internal/database.py:91-97 | The query yields a (key, molecule) pair exactly when the key was asked for and a row holds that key and that molecule's text. |
| MoleculeDb.RetrievedKeysDistinct | src/atomlite/_internal/database.py:91-97 | With unique keys in the table, no key is yielded twice. |
| MoleculeDb.Connection.constructor | src/atomlite/_internal/database.py:39 | The connection holds the tables of the opened database. |
| MoleculeDb.Connection.CreateTableIfNotExists | src/atomlite/_internal/database.py:40-43 | An absent table is created empty, and an existing one keeps its rows. |
| MoleculeDb.Connection.InsertRow | src/atomlite/_internal/database.py:60 | One insert succeeds exactly when the key is not yet stored, and then appends the row. A failed insert changes nothing. |
| MoleculeDb.Connection.InsertMany | src/atomlite/_internal/database.py:59-62 | Only the named table changes. It becomes the batch insert's resulting table, and the reported conflict is that insert's. |
| MoleculeDb.Connection.SelectKeyIn | src/atomlite/_internal/database.py:91-97 | With one placeholder per key, the result is the rows whose key was asked for, each with its parsed molecule. |
| MoleculeDb.Database.constructor | src/atomlite/_internal/database.py:26-43 | The table name defaults to `molecules`. Opening creates the molecule table if it is absent, changes nothing else, and leaves the database valid (the table exists and its keys are unique). |
| MoleculeDb.Database.AddMolecules | src/atomlite/_internal/database.py:45-62 | A single entry counts as a batch of one. The molecule table becomes the result of inserting the entries in order, and other tables do not change. Validity is kept. |
| MoleculeDb.Database.GetMolecules | src/atomlite/_internal/database.py:64-97 | A single key string counts as one key. The result is exactly the stored (key, parsed molecule) pairs whose key was asked for. |
| MoleculeDb.GetOneKey | src/atomlite/_internal/database.py:86-97 | Asking for one key yields at most one pair, and only with that key. It yields one exactly when the key is stored. |
| MoleculeDb.AddThenGet | tests/test_database.py:15-31 | Take a batch inserted without a conflict. Asking for its keys yields each key once, and yields a pair exactly when it is the key and molecule of one of the batch's entries. |

## Left out

- **Toolkit internals.**
  - The toolkit's chemistry is not modelled: sanitisation, implicit hydrogens, SMILES.
  - A toolkit molecule is reduced to its atoms, typed bonds and conformers.
- **Other toolkit bond types.** The bond types beyond the eleven ordinary orders, dative and aromatic are one case, `Other`. The encoder rejects all of them alike.
- **Toolkit.KindOfOrder:** the decoder passes the stored float order straight to the toolkit's bond builder. The model assumes the builder reads it as the ordinary type with that order. Any other value raises `InvalidBondOrder`. The toolkit's own conversion of a float argument is not part of this model.
- MoleculeJson.ToRdkit: the toolkit stores an atomic number as an unsigned 32-bit integer and a formal charge as a signed 32-bit integer, and its bindings raise for a value outside that range (json.py:127-128). The model keeps both as unbounded integers and does not raise there.
- RoundTrip.DecodeOkIff: for the same reason, its "exactly when" leaves out the failure on a negative atomic number or a charge outside 32 bits. A record produced by the encoder never holds such values, because its atoms come from the toolkit.
- **JSON text.**
  - `json.dumps` and `json.loads` are modelled as a lossless wrapper (`MoleculeText`).
  - Parsing does not rebuild the named tuples. `json.loads` returns plain lists, which the decoder's attribute accesses would not accept; this is not modelled.
  - Number formatting and float round-off in JSON are not modelled.
- **Properties.** The properties dictionary is stored and passed through but never interpreted.
- **Coordinates.** They are reals that are only copied. Floating-point values and the numpy `tolist` conversion are not modelled.
- **Opening the database.** `sqlite3.connect` (file I/O and a path or `:memory:`) is the caller's job. The `Connection` is given the tables of the opened database.
- **SQL text.**
  - The SQL is not parsed.
  - Table names are not escaped and injection is not considered.
  - The `molecule JSON` column affinity is not modelled.
- **Transactions.** Commit, rollback, implicit transactions and concurrent connections are left out. An insert batch keeps the rows inserted before the first conflict.
- **MoleculeDb.Connection.SelectKeyIn:** the model yields the rows in table order. SQLite promises no order for `WHERE key IN (...)`, so only the membership and distinct-key lemmas (`RetrievedMembers`, `RetrievedKeysDistinct`, `GetOneKey`, `AddThenGet`) describe what the source guarantees.
- **SQLite's variable limit.** SQLite limits the number of `?` parameters; going past it is not modelled.
- **Lazy results.** `get_molecules` is a generator. The model returns the finished sequence; laziness is not modelled.
- **Iterators as arguments.** An iterable of entries or keys is modelled as a finite sequence. A one-shot iterator is consumed exactly once, as the model's single pass does.
- **Outside this model.** These are entry points and wrappers around the core, not part of it:
  - the command-line script;
  - the examples;
  - the benchmarks;
  - the package's re-exports in `src/atomlite/__init__.py`.

## Findings

| source | as written | input that shows it | evidently intended | confidence | as-written member | corrected member |
|---|---|---|---|---|---|---|
| src/atomlite/_internal/json.py:87 | The dative case matches `rdkit.BondType.DATTVE`, a name the toolkit does not define. Evaluating that case pattern raises. The case is never reached as written, because the half-order names before it raise first (next row); with those corrected, every dative or aromatic bond would still make the encoder fail here. | A molecule with one dative bond between Cl and Fe (the molecule of tests/test_json_serde.py:23-26) | `rdkit.BondType.DATIVE`: the bond is stored in `dative_bonds` with order 1.0, and aromatic bonds reach their own case | not executed | MoleculeJson.DativeCaseRejectedAsWritten | RoundTrip.EncodePartition |
| src/atomlite/_internal/json.py:74-78 | The half-order alternatives are spelt `ONEANDHALF` … `FIVEANDHALF`; the toolkit's bond types are `ONEANDAHALF` … `FIVEANDAHALF`. The alternatives are tried in order and the first misspelt name raises when it is tried, so every bond other than SINGLE…HEXTUPLE makes the encoder fail. | Two carbons joined by one bond of order 1.5 | The toolkit's half-order names: the bond is stored in `bonds` with order 1.5, and dative and aromatic bonds reach their own cases | not executed | MoleculeJson.HalfOrderRejectedAsWritten | RoundTrip.EncodePartition |
