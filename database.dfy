/** The keyed molecule table of src/atomlite/_internal/database.py: a
    database wraps a connection whose tables hold rows of a key and the
    molecule's JSON text, keyed by `key TEXT PRIMARY KEY`. */
module MoleculeDb {
  import opened Wrappers
  import MJ = MoleculeJson

  /** One row of the molecule table. */
  datatype Row = Row(key: string, molecule: MJ.MoleculeText)

  /** No two rows share a key, as the table's primary key demands. */
  ghost predicate UniqueKeys(rows: seq<Row>)
  {
    forall i, j :: 0 <= i < j < |rows| ==> rows[i].key != rows[j].key
  }

  /** Some row has the key. */
  predicate HasKey(rows: seq<Row>, key: string)
  {
    exists i :: 0 <= i < |rows| && rows[i].key == key
  }

  // ---------------------------------------------------------------------
  // Inserting
  // ---------------------------------------------------------------------

  /** The table after a batch of inserts, and the key of the insert that
      violated the primary key, if one did. Inserts run one after the other;
      the first violation stops the batch and the rows inserted before it
      stay. */
  datatype InsertOutcome = InsertOutcome(rows: seq<Row>, conflict: Option<string>)

  /** The inserts of `batch`, one at a time, into a table holding `rows`. */
  function Inserted(rows: seq<Row>, batch: seq<Row>): InsertOutcome
  {
    if batch == [] then InsertOutcome(rows, None)
    else
      var before := Inserted(rows, batch[..|batch| - 1]);
      var row := batch[|batch| - 1];
      if before.conflict.Some? then before
      else if HasKey(before.rows, row.key) then InsertOutcome(before.rows, Some(row.key))
      else InsertOutcome(before.rows + [row], None)
  }

  /** Once an insert has failed, the later ones are not run. */
  lemma {:induction false} InsertedStopsAtConflict(rows: seq<Row>, batch: seq<Row>, k: nat)
    requires k <= |batch|
    requires Inserted(rows, batch[..k]).conflict.Some?
    ensures Inserted(rows, batch) == Inserted(rows, batch[..k])
    decreases |batch| - k
  {
    if k < |batch| {
      assert batch[..k + 1][..k] == batch[..k];
      InsertedStopsAtConflict(rows, batch, k + 1);
    } else {
      assert batch[..k] == batch;
    }
  }

  /** The table after a batch is the old table followed by the batch rows
      up to the first conflict; with no conflict the whole batch is added,
      and a conflict names the key of a row whose key is already present. */
  lemma {:induction false} InsertedShape(rows: seq<Row>, batch: seq<Row>)
    ensures var r := Inserted(rows, batch);
      && |rows| <= |r.rows| <= |rows| + |batch|
      && r.rows == rows + batch[..|r.rows| - |rows|]
      && (r.conflict.None? ==> r.rows == rows + batch)
      && (r.conflict.Some? ==>
            && |r.rows| - |rows| < |batch|
            && r.conflict.value == batch[|r.rows| - |rows|].key
            && HasKey(r.rows, r.conflict.value))
  {
    if batch != [] {
      var prefix := batch[..|batch| - 1];
      InsertedShape(rows, prefix);
      var before := Inserted(rows, prefix);
      var k := |before.rows| - |rows|;
      assert batch[..k] == prefix[..k];
      if before.conflict.None? {
        assert k == |prefix|;
        assert before.rows + [batch[|batch| - 1]] == rows + batch;
      }
    }
  }

  /** Inserting keeps the keys of the table unique. */
  lemma {:induction false} InsertedKeepsUniqueKeys(rows: seq<Row>, batch: seq<Row>)
    requires UniqueKeys(rows)
    ensures UniqueKeys(Inserted(rows, batch).rows)
  {
    if batch != [] {
      var prefix := batch[..|batch| - 1];
      InsertedKeepsUniqueKeys(rows, prefix);
    }
  }

  /** A batch goes in without a conflict exactly when its keys are distinct
      and none of them is already in the table. */
  lemma {:induction false} InsertSucceedsIff(rows: seq<Row>, batch: seq<Row>)
    ensures Inserted(rows, batch).conflict.None? <==>
      UniqueKeys(batch) && forall i :: 0 <= i < |batch| ==> !HasKey(rows, batch[i].key)
  {
    if batch != [] {
      var prefix, row := batch[..|batch| - 1], batch[|batch| - 1];
      InsertSucceedsIff(rows, prefix);
      InsertedShape(rows, prefix);
      assert batch == prefix + [row];
      var before := Inserted(rows, prefix);
      if before.conflict.None? {
        assert before.rows == rows + prefix;
        if HasKey(before.rows, row.key) {
          var i :| 0 <= i < |before.rows| && before.rows[i].key == row.key;
          if i >= |rows| {
            assert batch[i - |rows|].key == batch[|batch| - 1].key;
          } else {
            assert HasKey(rows, batch[|batch| - 1].key);
          }
        } else {
          forall i | 0 <= i < |prefix|
            ensures prefix[i].key != row.key
          {
            assert before.rows[|rows| + i] == prefix[i];
          }
          forall i | 0 <= i < |rows|
            ensures rows[i].key != row.key
          {
            assert before.rows[i] == rows[i];
          }
        }
      } else {
        assert !(UniqueKeys(prefix) && forall i :: 0 <= i < |prefix| ==> !HasKey(rows, prefix[i].key));
        if UniqueKeys(batch) {
          assert UniqueKeys(prefix) by {
            forall i, j | 0 <= i < j < |prefix|
              ensures prefix[i].key != prefix[j].key
            {
              assert prefix[i] == batch[i] && prefix[j] == batch[j];
            }
          }
          var i :| 0 <= i < |prefix| && HasKey(rows, prefix[i].key);
          assert prefix[i] == batch[i];
        }
      }
    }
  }

  // ---------------------------------------------------------------------
  // Selecting
  // ---------------------------------------------------------------------

  /** The placeholder list for `n` query parameters: `n` question marks
      joined by commas. */
  function Placeholders(n: nat): string
  {
    Join(",", seq(n, _ => "?"))
  }

  /** The parts joined with the separator between each two of them. */
  function Join(sep: string, parts: seq<string>): string
  {
    if |parts| == 0 then ""
    else if |parts| == 1 then parts[0]
    else Join(sep, parts[..|parts| - 1]) + sep + parts[|parts| - 1]
  }

  /** How often `c` occurs in `s`. */
  function Occurrences(s: string, c: char): nat
  {
    if s == [] then 0 else Occurrences(s[..|s| - 1], c) + (if s[|s| - 1] == c then 1 else 0)
  }

  /** One more parameter adds a comma and a question mark. */
  lemma PlaceholdersSnoc(n: nat)
    requires n >= 1
    ensures Placeholders(n + 1) == Placeholders(n) + ",?"
  {
    var parts := seq(n + 1, _ => "?");
    assert parts[..n] == seq(n, _ => "?");
  }

  /** The placeholder list is empty for no parameters and otherwise
      `2n - 1` characters long, question marks and commas alternating,
      starting and ending with a question mark. */
  lemma {:induction false} PlaceholdersShape(n: nat)
    ensures |Placeholders(n)| == if n == 0 then 0 else 2 * n - 1
    ensures forall i :: 0 <= i < |Placeholders(n)| ==> Placeholders(n)[i] == if i % 2 == 0 then '?' else ','
  {
    if n > 1 {
      PlaceholdersShape(n - 1);
      PlaceholdersSnoc(n - 1);
    } else if n == 1 {
      assert Placeholders(1) == "?";
    }
  }

  /** The placeholder list has exactly one question mark per parameter. */
  lemma {:induction false} PlaceholdersCount(n: nat)
    ensures Occurrences(Placeholders(n), '?') == n
  {
    if n > 1 {
      PlaceholdersCount(n - 1);
      PlaceholdersSnoc(n - 1);
      var s := Placeholders(n - 1) + ",?";
      assert s[..|s| - 1] == Placeholders(n - 1) + ",";
      assert (Placeholders(n - 1) + ",")[..|s| - 2] == Placeholders(n - 1);
    } else if n == 1 {
      assert Placeholders(1) == "?";
      assert "?"[..0] == "";
    }
  }

  /** What the query yields: the key and the parsed molecule of each row
      whose key is among `keys`. */
  function Retrieved(rows: seq<Row>, keys: seq<string>): seq<(string, MJ.Molecule)>
  {
    if rows == [] then []
    else
      var last := rows[|rows| - 1];
      Retrieved(rows[..|rows| - 1], keys) + if last.key in keys then [(last.key, MJ.EntryMolecule(MJ.Entry(last.key, last.molecule)))] else []
  }

  /** A pair is yielded exactly when its key was asked for and a row holds
      that key and molecule. */
  lemma {:induction false} RetrievedMembers(rows: seq<Row>, keys: seq<string>, key: string, molecule: MJ.Molecule)
    ensures (key, molecule) in Retrieved(rows, keys) <==>
      key in keys && exists i :: 0 <= i < |rows| && rows[i].key == key && rows[i].molecule.document == molecule
  {
    if rows != [] {
      var prefix := rows[..|rows| - 1];
      RetrievedMembers(prefix, keys, key, molecule);
      if exists i :: 0 <= i < |prefix| && prefix[i].key == key && prefix[i].molecule.document == molecule {
        var i :| 0 <= i < |prefix| && prefix[i].key == key && prefix[i].molecule.document == molecule;
        assert rows[i] == prefix[i];
      }
      if exists i :: 0 <= i < |rows| && rows[i].key == key && rows[i].molecule.document == molecule {
        var i :| 0 <= i < |rows| && rows[i].key == key && rows[i].molecule.document == molecule;
        if i < |prefix| {
          assert prefix[i] == rows[i];
        }
      }
    }
  }

  /** Each stored key is yielded at most once. */
  lemma {:induction false} RetrievedKeysDistinct(rows: seq<Row>, keys: seq<string>)
    requires UniqueKeys(rows)
    ensures var r := Retrieved(rows, keys);
      forall i, j :: 0 <= i < j < |r| ==> r[i].0 != r[j].0
  {
    if rows != [] {
      var prefix, last := rows[..|rows| - 1], rows[|rows| - 1];
      RetrievedKeysDistinct(prefix, keys);
      var r := Retrieved(prefix, keys);
      forall i | 0 <= i < |r|
        ensures r[i].0 != last.key
      {
        assert r[i] in Retrieved(prefix, keys);
        RetrievedMembers(prefix, keys, r[i].0, r[i].1);
        var j :| 0 <= j < |prefix| && prefix[j].key == r[i].0 && prefix[j].molecule.document == r[i].1;
        assert rows[j] == prefix[j];
      }
    }
  }

  // ---------------------------------------------------------------------
  // The connection and the database
  // ---------------------------------------------------------------------

  /** An open connection: its tables by name. Opening the file is I/O and
      left to the caller; the connection is what it opened. */
  class Connection {
    var tables: map<string, seq<Row>>

    constructor (tables: map<string, seq<Row>>)
      ensures this.tables == tables
    {
      this.tables := tables;
    }

    /** `CREATE TABLE IF NOT EXISTS`: an absent table is created empty, an
        existing one is left as it is. */
    method CreateTableIfNotExists(name: string)
      modifies this
      ensures name in tables
      ensures tables == if name in old(tables) then old(tables) else old(tables)[name := []]
    {
      if name !in tables {
        tables := tables[name := []];
      }
    }

    /** One `INSERT`: it violates the primary key when the key is present. */
    method InsertRow(name: string, row: Row) returns (ok: bool)
      requires name in tables
      modifies this
      ensures ok == !HasKey(old(tables[name]), row.key)
      ensures tables == if ok then old(tables)[name := old(tables[name]) + [row]] else old(tables)
    {
      ok := !HasKey(tables[name], row.key);
      if ok {
        tables := tables[name := tables[name] + [row]];
      }
    }

    /** `executemany` of an `INSERT`: the rows are inserted in order until
        one violates the primary key, whose key is returned. */
    method InsertMany(name: string, batch: seq<Row>) returns (conflict: Option<string>)
      requires name in tables
      modifies this
      ensures tables == old(tables)[name := Inserted(old(tables[name]), batch).rows]
      ensures conflict == Inserted(old(tables[name]), batch).conflict
    {
      ghost var start := tables[name];
      assert batch[..0] == [];
      for i := 0 to |batch|
        invariant name in tables
        invariant tables == old(tables)[name := Inserted(start, batch[..i]).rows]
        invariant Inserted(start, batch[..i]).conflict.None?
      {
        assert batch[..i + 1][..i] == batch[..i];
        var ok := InsertRow(name, batch[i]);
        if !ok {
          InsertedStopsAtConflict(start, batch, i + 1);
          return Some(batch[i].key);
        }
      }
      assert batch[..|batch|] == batch;
      conflict := None;
    }

    /** `SELECT * ... WHERE key IN (...)` with one placeholder per key: the
        rows whose key is among the keys, each with its parsed molecule. */
    method SelectKeyIn(name: string, placeholders: string, keys: seq<string>) returns (found: seq<(string, MJ.Molecule)>)
      requires name in tables
      requires Occurrences(placeholders, '?') == |keys|
      ensures found == Retrieved(tables[name], keys)
    {
      var rows := tables[name];
      found := [];
      for i := 0 to |rows|
        invariant found == Retrieved(rows[..i], keys)
      {
        assert rows[..i + 1][..i] == rows[..i];
        if rows[i].key in keys {
          found := found + [(rows[i].key, MJ.EntryMolecule(MJ.Entry(rows[i].key, rows[i].molecule)))];
        }
      }
      assert rows[..|rows|] == rows;
    }
  }

  /** What `add_molecules` accepts: one entry or several. */
  datatype Entries = OneEntry(entry: MJ.Entry) | EntryBatch(entries: seq<MJ.Entry>)

  /** A single entry is a batch of one. */
  function AsBatch(molecules: Entries): seq<MJ.Entry>
  {
    match molecules
    case OneEntry(e) => [e]
    case EntryBatch(es) => es
  }

  /** The rows of a batch of entries, bound by key and molecule. */
  function BatchRows(entries: seq<MJ.Entry>): seq<Row>
  {
    seq(|entries|, i requires 0 <= i < |entries| => Row(entries[i].key, entries[i].molecule))
  }

  /** What `get_molecules` accepts: one key or several. */
  datatype Keys = OneKey(key: string) | KeyList(keys: seq<string>)

  /** A single key string is one key, not a sequence of one-letter keys. */
  function KeyTuple(keys: Keys): seq<string>
  {
    match keys
    case OneKey(k) => [k]
    case KeyList(ks) => ks
  }

  /** A molecular database: a connection and the name of its molecule
      table. */
  class Database {
    const connection: Connection
    const moleculeTable: string

    /** The molecule table exists and its keys are unique. */
    ghost predicate Valid()
      reads connection
    {
      moleculeTable in connection.tables && UniqueKeys(connection.tables[moleculeTable])
    }

    /** The rows of the molecule table. */
    function Rows(): seq<Row>
      reads connection
      requires moleculeTable in connection.tables
    {
      connection.tables[moleculeTable]
    }

    /** Opens the database on a connection: the molecule table is created
        if absent, and nothing else changes. A table that is already there
        keeps its rows; it is taken to have the schema this class creates,
        with `key` as its primary key, so its keys are unique. */
    constructor (connection: Connection, moleculeTable: string := "molecules")
      requires moleculeTable in connection.tables ==> UniqueKeys(connection.tables[moleculeTable])
      modifies connection
      ensures this.connection == connection && this.moleculeTable == moleculeTable
      ensures connection.tables ==
        if moleculeTable in old(connection.tables) then old(connection.tables)
        else old(connection.tables)[moleculeTable := []]
      ensures Valid()
    {
      this.connection := connection;
      this.moleculeTable := moleculeTable;
      new;
      connection.CreateTableIfNotExists(moleculeTable);
    }

    /** Adds the entries as rows, in order, stopping at the first key that
        is already present; other tables do not change. */
    method AddMolecules(molecules: Entries) returns (conflict: Option<string>)
      requires Valid()
      modifies connection
      ensures Valid()
      ensures connection.tables ==
        old(connection.tables)[moleculeTable := Inserted(old(Rows()), BatchRows(AsBatch(molecules))).rows]
      ensures conflict == Inserted(old(Rows()), BatchRows(AsBatch(molecules))).conflict
    {
      var batch := AsBatch(molecules);
      InsertedKeepsUniqueKeys(connection.tables[moleculeTable], BatchRows(batch));
      conflict := connection.InsertMany(moleculeTable, BatchRows(batch));
    }

    /** Yields the key and parsed molecule of every row whose key was asked
        for; keys that are not stored are skipped. */
    method GetMolecules(keys: Keys) returns (found: seq<(string, MJ.Molecule)>)
      requires Valid()
      ensures found == Retrieved(Rows(), KeyTuple(keys))
    {
      var ks := KeyTuple(keys);
      var query := Placeholders(|ks|);
      PlaceholdersCount(|ks|);
      found := connection.SelectKeyIn(moleculeTable, query, ks);
    }
  }

  // ---------------------------------------------------------------------
  // Adding, then getting
  // ---------------------------------------------------------------------

  /** Asking for one key yields that key's molecule when it is stored and
      nothing otherwise. */
  lemma GetOneKey(rows: seq<Row>, key: string)
    requires UniqueKeys(rows)
    ensures var r := Retrieved(rows, KeyTuple(OneKey(key)));
      && |r| <= 1
      && (|r| == 1 <==> HasKey(rows, key))
      && forall p :: p in r ==> p.0 == key
  {
    var r := Retrieved(rows, [key]);
    RetrievedKeysDistinct(rows, [key]);
    forall p | p in r
      ensures p.0 == key && HasKey(rows, key)
    {
      RetrievedMembers(rows, [key], p.0, p.1);
    }
    if HasKey(rows, key) {
      var i :| 0 <= i < |rows| && rows[i].key == key;
      RetrievedMembers(rows, [key], key, rows[i].molecule.document);
    }
  }

  /** The keys of a batch of entries. */
  function EntryKeys(entries: seq<MJ.Entry>): seq<string>
  {
    seq(|entries|, i requires 0 <= i < |entries| => entries[i].key)
  }

  /** After a batch went in without a conflict, asking for its keys yields
      a pair exactly when it is the key and molecule of one of its entries,
      and each key once. */
  lemma AddThenGet(rows: seq<Row>, entries: seq<MJ.Entry>, key: string, molecule: MJ.Molecule)
    requires UniqueKeys(rows)
    requires Inserted(rows, BatchRows(entries)).conflict.None?
    ensures var r := Retrieved(Inserted(rows, BatchRows(entries)).rows, EntryKeys(entries));
      && (forall i, j :: 0 <= i < j < |r| ==> r[i].0 != r[j].0)
      && ((key, molecule) in r <==>
            exists i :: 0 <= i < |entries| && entries[i].key == key && MJ.EntryMolecule(entries[i]) == molecule)
  {
    var batch := BatchRows(entries);
    var keys := EntryKeys(entries);
    InsertedShape(rows, batch);
    InsertedKeepsUniqueKeys(rows, batch);
    InsertSucceedsIff(rows, batch);
    var stored := Inserted(rows, batch).rows;
    RetrievedKeysDistinct(stored, keys);
    RetrievedMembers(stored, keys, key, molecule);
    if (key, molecule) in Retrieved(stored, keys) {
      var j :| 0 <= j < |stored| && stored[j].key == key && stored[j].molecule.document == molecule;
      var i :| 0 <= i < |keys| && keys[i] == key;
      if j < |rows| {
        assert stored[j] == rows[j];
        assert HasKey(rows, batch[i].key);
      }
      assert stored[j] == batch[j - |rows|];
    }
    if exists i :: 0 <= i < |entries| && entries[i].key == key && MJ.EntryMolecule(entries[i]) == molecule {
      var i :| 0 <= i < |entries| && entries[i].key == key && MJ.EntryMolecule(entries[i]) == molecule;
      assert stored[|rows| + i] == batch[i];
      assert keys[i] == key;
    }
  }
}
