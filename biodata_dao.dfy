/**
  * The Room DAO over `biodata_table`. The table is a map from primary key to
  * row; the DAO object holds it as a field that its write methods replace.
  * Room's suspend functions and its `Flow` are modelled as synchronous
  * calls, and the flow as the current result of its query.
  */
module Dao {
  import opened Wrappers
  import opened Model

  /** The table: each primary key maps to at most one row. */
  type Table = map<Int32, Biodataitem>

  /** The id in both queries, `WHERE id = 1`. */
  const QueryId: Int32 := 1

  /** Every row is stored under its own primary key. */
  ghost predicate KeyedById(t: Table)
  {
    forall k :: k in t ==> t[k].id == k
  }

  /**
    * `@Insert(onConflict = REPLACE)`, SQLite's `INSERT OR REPLACE`: the row
    * goes under its own id, replacing whatever row held that id, and every
    * other row stays as it was.
    */
  function InsertOrReplace(t: Table, row: Biodataitem): (t': Table)
    ensures row.id in t' && t'[row.id] == row
    ensures t'.Keys == t.Keys + {row.id}
    ensures forall k :: k in t && k != row.id ==> t'[k] == t[k]
    ensures KeyedById(t) ==> KeyedById(t')
  {
    t[row.id := row]
  }

  /** `SELECT * FROM biodata_table WHERE id = key`: the row, or null. */
  function SelectById(t: Table, key: Int32): (found: Option<Biodataitem>)
    ensures found.Some? <==> key in t
    ensures found.Some? ==> found.value == t[key]
    ensures found.Some? && KeyedById(t) ==> found.value.id == key
  {
    if key in t then Some(t[key]) else None
  }

  /** `DELETE FROM biodata_table WHERE id = key`: no error if there is no such row. */
  function DeleteById(t: Table, key: Int32): (t': Table)
    ensures t'.Keys == t.Keys - {key}
    ensures forall k :: k in t' ==> t'[k] == t[k]
    ensures KeyedById(t) ==> KeyedById(t')
  {
    t - {key}
  }

  /** A row saved under id 1 is what the query then returns; any other id leaves the query's result alone. */
  lemma SelectAfterInsert(t: Table, row: Biodataitem)
    ensures SelectById(InsertOrReplace(t, row), QueryId)
         == if row.id == QueryId then Some(row) else SelectById(t, QueryId)
  {
  }

  /** Two records with the same id occupy the same slot: the second replaces the first entirely. */
  lemma InsertReplacesSameKey(t: Table, a: Biodataitem, b: Biodataitem)
    requires a.id == b.id
    ensures InsertOrReplace(InsertOrReplace(t, a), b) == InsertOrReplace(t, b)
  {
  }

  /** Saving the same row twice leaves the table as saving it once. */
  lemma InsertIdempotent(t: Table, row: Biodataitem)
    ensures InsertOrReplace(InsertOrReplace(t, row), row) == InsertOrReplace(t, row)
  {
  }

  /** After the delete the query finds nothing. */
  lemma SelectAfterDelete(t: Table)
    ensures SelectById(DeleteById(t, QueryId), QueryId) == None
  {
  }

  /** Deleting an absent row changes nothing; deleting twice is deleting once. */
  lemma DeleteAbsentIsNoop(t: Table, key: Int32)
    ensures key !in t ==> DeleteById(t, key) == t
    ensures DeleteById(DeleteById(t, key), key) == DeleteById(t, key)
  {
  }

  /** The DAO: its table is the state Room persists. */
  class BiodataDao {
    var table: Table

    ghost predicate Valid()
      reads this
    {
      KeyedById(table)
    }

    /** A freshly created database holds no rows. */
    constructor ()
      ensures Valid() && table == map[]
    {
      table := map[];
    }

    /** `saveBiodata`: insert or replace by primary key. */
    method SaveBiodata(biodata: Biodataitem)
      requires Valid()
      modifies this
      ensures Valid()
      ensures table == InsertOrReplace(old(table), biodata)
    {
      table := table[biodata.id := biodata];
    }

    /** `getBiodata`: the row with id 1, or null. */
    method GetBiodata() returns (biodata: Option<Biodataitem>)
      requires Valid()
      ensures biodata == SelectById(table, QueryId)
      ensures biodata.Some? <==> QueryId in table
      ensures biodata.Some? ==> biodata.value == table[QueryId] && biodata.value.id == QueryId
    {
      biodata := if QueryId in table then Some(table[QueryId]) else None;
    }

    /** `deleteBiodata`: remove the row with id 1 if there is one. */
    method DeleteBiodata()
      requires Valid()
      modifies this
      ensures Valid()
      ensures table == DeleteById(old(table), QueryId)
    {
      table := table - {QueryId};
    }
  }
}
