/**
 The transaction history table (src/main/blockchain/tx-history.js:86-134): one row per hash, upserted
 by field-wise merge, and the removal of pending rows that will not be mined.
 */
module TxHistory {
  import opened Wrappers
  import opened Json

  type Row = map<string, Value>

  /** Rows by primary key. */
  datatype Table = Table(rows: map<int, Row>, nextId: int)

  ghost predicate HashOf(row: Row, hash: string) {
    "hash" in row && row["hash"] == Str(hash)
  }

  predicate IsNull(row: Row, column: string) {
    column !in row || row[column] == Null
  }

  predicate Mined(row: Row) {
    !IsNull(row, "blockNumber")
  }

  /** Every row has a hash, and no two rows the same one. */
  ghost predicate Unique(t: Table) {
    (forall id :: id in t.rows ==> id < t.nextId && "hash" in t.rows[id] && t.rows[id]["hash"].Str?) &&
    forall a, b :: a in t.rows && b in t.rows && t.rows[a]["hash"] == t.rows[b]["hash"] ==> a == b
  }

  ghost predicate Stored(t: Table, hash: string) {
    exists id :: id in t.rows && HashOf(t.rows[id], hash)
  }

  ghost predicate StoredMined(t: Table, hash: string) {
    exists id :: id in t.rows && HashOf(t.rows[id], hash) && Mined(t.rows[id])
  }

  /** `findOne({ hash })`: the row with this hash, or none. */
  ghost predicate FoundBy(t: Table, hash: string, found: Option<int>) {
    match found
    case Some(id) => id in t.rows && HashOf(t.rows[id], hash)
    case None => !Stored(t, hash)
  }

  /** The patch of the row that was found, which changes nothing if it is gone, or the insertion. */
  function Written(t: Table, found: Option<int>, data: Row): Table {
    match found
    case Some(id) => if id in t.rows then t.(rows := t.rows[id := t.rows[id] + data]) else t
    case None => Table(t.rows[t.nextId := data], t.nextId + 1)
  }

  /** `addOrUpdate` with nothing in between: merge into the row with this hash, or insert a new row. */
  ghost predicate Upserted(t: Table, hash: string, data: Row, after: Table) {
    exists found :: FoundBy(t, hash, found) && after == Written(t, found, data)
  }

  /** The row's sender or recipient. */
  predicate PartyOf(row: Row, publicKey: string) {
    ("from" in row && row["from"] == Str(publicKey)) || ("to" in row && row["to"] == Str(publicKey))
  }

  /** The condition of the removal query. */
  predicate Doomed(row: Row, publicKey: string, nonce: int) {
    IsNull(row, "blockNumber") &&
    (IsNull(row, "nonce") || (row["nonce"].Num? && row["nonce"].n < nonce)) &&
    PartyOf(row, publicKey)
  }

  function CleanedUp(t: Table, publicKey: string, nonce: int): Table {
    t.(rows := map id | id in t.rows && !Doomed(t.rows[id], publicKey, nonce) :: t.rows[id])
  }

  class TxTable {
    var rows: map<int, Row>
    var nextId: int

    function Contents(): Table
      reads this
    {
      Table(rows, nextId)
    }

    ghost predicate Valid()
      reads this
    {
      Unique(Contents())
    }

    constructor ()
      ensures Valid() && Contents() == Table(map[], 1)
    {
      rows, nextId := map[], 1;
    }

    method FindOne(hash: string) returns (record: Option<int>)
      ensures FoundBy(Contents(), hash, record)
    {
      if exists id :: id in rows && "hash" in rows[id] && rows[id]["hash"] == Str(hash) {
        var id :| id in rows && "hash" in rows[id] && rows[id]["hash"] == Str(hash);
        record := Some(id);
      } else {
        record := None;
        assert forall id :: id in rows ==> !HashOf(rows[id], hash);
      }
    }

    /** `patchAndFetchById` or `insertAndFetch`. */
    method Write(record: Option<int>, data: Row)
      modifies this
      ensures Contents() == Written(old(Contents()), record, data)
    {
      match record {
        case Some(id) =>
          if id in rows {
            rows := rows[id := rows[id] + data];
          }
        case None => rows, nextId := rows[nextId := data], nextId + 1;
      }
    }

    method AddOrUpdate(hash: string, data: Row)
      requires Valid() && HashOf(data, hash)
      modifies this
      ensures Valid() && Upserted(old(Contents()), hash, data, Contents())
    {
      ghost var t := Contents();
      var record := FindOne(hash);
      Write(record, data);
      UpsertUnique(t, hash, data, Contents());
    }

    method RemoveNotMinedPendingTxs(publicKey: string, nonce: int)
      requires Valid()
      modifies this
      ensures Valid() && Contents() == CleanedUp(old(Contents()), publicKey, nonce)
    {
      rows := map id | id in rows && !Doomed(rows[id], publicKey, nonce) :: rows[id];
    }
  }

  lemma UpsertUnique(t: Table, hash: string, data: Row, after: Table)
    requires Unique(t) && HashOf(data, hash) && Upserted(t, hash, data, after)
    ensures Unique(after) && Stored(after, hash)
  {
    var found :| FoundBy(t, hash, found) && after == Written(t, found, data);
    match found
    case Some(id) => assert HashOf(after.rows[id], hash);
    case None =>
      assert forall id :: id in t.rows ==> !HashOf(t.rows[id], hash);
      assert HashOf(after.rows[t.nextId], hash);
  }

  /**
   An upsert touches its own hash only, which is mined afterwards if the data says so, or if it
   says nothing and the row was mined before.
   */
  lemma UpsertKeepsMined(t: Table, hash: string, data: Row, after: Table, other: string)
    requires Unique(t) && HashOf(data, hash) && Upserted(t, hash, data, after)
    ensures other != hash ==> (StoredMined(after, other) <==> StoredMined(t, other))
    ensures StoredMined(after, hash) <==> Mined(data) || ("blockNumber" !in data && StoredMined(t, hash))
  {
    var found :| FoundBy(t, hash, found) && after == Written(t, found, data);
    match found
    case Some(id) => UpdatedRow(t, hash, data, after, id, other);
    case None => InsertedRow(t, hash, data, after, other);
  }

  /**
   After an upsert the hash has one row, whose columns are those of the data and, for the others,
   what they were; every other row is as it was.
   */
  lemma UpsertColumns(t: Table, hash: string, data: Row, after: Table) returns (id: int)
    requires Unique(t) && HashOf(data, hash) && Upserted(t, hash, data, after)
    ensures forall k :: k in after.rows && HashOf(after.rows[k], hash) <==> k == id
    ensures forall column ::
      Field(after.rows[id], column) ==
      (if column in data then Some(data[column]) else if id in t.rows then Field(t.rows[id], column) else None)
    ensures forall k :: k in t.rows && k != id ==> k in after.rows && after.rows[k] == t.rows[k]
    ensures forall k :: k in after.rows && k != id ==> k in t.rows
    ensures id in t.rows ==> HashOf(t.rows[id], hash)
  {
    var found :| FoundBy(t, hash, found) && after == Written(t, found, data);
    id := if found.Some? then found.value else t.nextId;
    assert forall k :: k in t.rows && k != id ==> !HashOf(t.rows[k], hash);
  }

  lemma UpdatedRow(t: Table, hash: string, data: Row, after: Table, id: int, other: string)
    requires Unique(t) && HashOf(data, hash) && id in t.rows && HashOf(t.rows[id], hash)
    requires after == t.(rows := t.rows[id := t.rows[id] + data])
    ensures other != hash ==> (StoredMined(after, other) <==> StoredMined(t, other))
    ensures StoredMined(after, hash) <==> Mined(data) || ("blockNumber" !in data && StoredMined(t, hash))
  {
    assert HashOf(after.rows[id], hash);
    assert Mined(after.rows[id]) <==> Mined(data) || ("blockNumber" !in data && Mined(t.rows[id]));
    forall k | k in t.rows
      ensures HashOf(t.rows[k], hash) ==> k == id
      ensures k != id ==> after.rows[k] == t.rows[k]
    {
    }
  }

  lemma InsertedRow(t: Table, hash: string, data: Row, after: Table, other: string)
    requires Unique(t) && HashOf(data, hash) && !Stored(t, hash) && after == Table(t.rows[t.nextId := data], t.nextId + 1)
    ensures other != hash ==> (StoredMined(after, other) <==> StoredMined(t, other))
    ensures StoredMined(after, hash) <==> Mined(data) || ("blockNumber" !in data && StoredMined(t, hash))
  {
    assert forall k :: k in t.rows ==> !HashOf(t.rows[k], hash) && after.rows[k] == t.rows[k];
    assert HashOf(after.rows[t.nextId], hash);
  }

  /**
   Which rows a cleanup leaves, each as it was: those with a block number, those whose nonce is not
   below the account's, and those the account is no party of. A pending row without a nonce goes.
   */
  lemma CleanupLeaves(t: Table, publicKey: string, nonce: int, id: int)
    requires id in t.rows
    ensures var after, row := CleanedUp(t, publicKey, nonce), t.rows[id];
      var block, own := Field(row, "blockNumber"), Field(row, "nonce");
      after.rows.Keys <= t.rows.Keys && after.nextId == t.nextId &&
      (id in after.rows ==> after.rows[id] == row) &&
      (id in after.rows <==>
        (block.Some? && block.value != Null) ||
        (own.Some? && own.value != Null && !(own.value.Num? && own.value.n < nonce)) ||
        (Field(row, "from") != Some(Str(publicKey)) && Field(row, "to") != Some(Str(publicKey))))
  {
  }

  /** Cleaning up removes no mined row. */
  lemma CleanupKeepsMined(t: Table, publicKey: string, nonce: int, hash: string)
    requires Unique(t)
    ensures Unique(CleanedUp(t, publicKey, nonce))
    ensures StoredMined(CleanedUp(t, publicKey, nonce), hash) <==> StoredMined(t, hash)
  {
    var after := CleanedUp(t, publicKey, nonce);
    if StoredMined(t, hash) {
      var id :| id in t.rows && HashOf(t.rows[id], hash) && Mined(t.rows[id]);
      assert HashOf(after.rows[id], hash) && Mined(after.rows[id]);
    }
    if StoredMined(after, hash) {
      var id :| id in after.rows && HashOf(after.rows[id], hash) && Mined(after.rows[id]);
      assert HashOf(t.rows[id], hash) && Mined(t.rows[id]);
    }
  }
}
