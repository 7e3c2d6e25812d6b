/**
 * The companion bot's `movie_index` table (src/models/Movie.js): one row per
 * film code, pointing at the channel message that holds the film. The table
 * is a map from code to row; `created_at` is the clock reading `now` passed in.
 */
module MovieTable {
  import opened Wrappers

  datatype MovieRow = MovieRow(code: int, channelId: int, messageId: int, createdAt: int)

  /** Every row is filed under its own code, as the primary key `code` guarantees. */
  predicate KeyedByCode(rows: map<int, MovieRow>) {
    forall c :: c in rows ==> rows[c].code == c
  }

  /** The number of rows after writing `code`: one more only when the code was new. */
  lemma {:induction false} UpsertCount(rows: map<int, MovieRow>, code: int, row: MovieRow)
    ensures |rows[code := row]| == if code in rows then |rows| else |rows| + 1
  {
    if code in rows {
      assert rows[code := row].Keys == rows.Keys;
    } else {
      assert rows[code := row].Keys == rows.Keys + {code};
    }
  }

  /** The number of rows after deleting `code`: one fewer only when the code was there. */
  lemma {:induction false} RemoveCount(rows: map<int, MovieRow>, code: int)
    ensures |rows - {code}| == if code in rows then |rows| - 1 else |rows|
  {
    if code in rows {
      assert (rows - {code}).Keys == rows.Keys - {code};
    } else {
      assert rows - {code} == rows;
    }
  }

  class MovieIndex {
    var rows: map<int, MovieRow>

    ghost predicate Valid()
      reads this
    {
      KeyedByCode(rows)
    }

    constructor ()
      ensures Valid() && rows == map[]
    {
      rows := map[];
    }

    /**
     * `upsert({code, channelId, messageId})`: inserts the row, or overwrites
     * every column of the row already filed under `code`, and returns it.
     */
    method Upsert(code: int, channelId: int, messageId: int, now: int) returns (row: MovieRow)
      requires Valid()
      modifies this
      ensures Valid()
      ensures row == MovieRow(code, channelId, messageId, now)
      ensures rows == old(rows)[code := row]
      ensures FindByCode(code) == Some(row)
      ensures CountAll() == if code in old(rows) then old(CountAll()) else old(CountAll()) + 1
    {
      row := MovieRow(code, channelId, messageId, now);
      UpsertCount(rows, code, row);
      rows := rows[code := row];
    }

    /** `findByCode(code)`: the row filed under `code`, or nothing. */
    function FindByCode(code: int): (r: Option<MovieRow>)
      reads this
      requires Valid()
      ensures r.Some? <==> code in rows
      ensures r.Some? ==> r.value == rows[code] && r.value.code == code
    {
      if code in rows then Some(rows[code]) else None
    }

    /** `removeByCode(code)`: the number of rows deleted, 1 or 0. */
    method RemoveByCode(code: int) returns (removed: nat)
      requires Valid()
      modifies this
      ensures Valid()
      ensures removed == if code in old(rows) then 1 else 0
      ensures rows == old(rows) - {code}
      ensures FindByCode(code) == None
      ensures forall c :: c != code ==> FindByCode(c) == old(FindByCode(c))
      ensures CountAll() == old(CountAll()) - removed
    {
      removed := if code in rows then 1 else 0;
      RemoveCount(rows, code);
      rows := rows - {code};
    }

    /** `countAll()`: the number of indexed codes. */
    function CountAll(): (n: nat)
      reads this
      ensures n == |rows.Keys|
    {
      |rows|
    }
  }
}
