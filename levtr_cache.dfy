/**
 * The v6 database's level/time-range cache (`MapLevTrCache` in
 * `dballe/db/v6/internals.cc`): a map from a `lev_tr` row id to the seven
 * level and time range components of that row, prefetched from the
 * `lev_tr` table on construction, filled on a miss, and emptied by
 * `invalidate`.
 *
 * The `lev_tr` table is an object of its own (`LevTrTable`) holding its rows
 * in the order `read_all` walks them, and counting the single-row reads the
 * cache makes, so that "a hit does not touch the database" can be stated.
 */
module LevTrCache {
  import opened Wrappers
  import opened Defs

  /** A row of the `lev_tr` table, `LevTr::DBRow`. */
  datatype DBRow = DBRow(id: int, ltype1: int, l1: int, ltype2: int, l2: int, pind: int, p1: int, p2: int)

  /** `MapLevTrCache::Item`: the seven components of a row, without its id. */
  datatype Item = Item(ltype1: int, l1: int, ltype2: int, l2: int, pind: int, p1: int, p2: int)

  /** `Item(const DBRow&)`. */
  function ItemOf(row: DBRow): Item
  {
    Item(row.ltype1, row.l1, row.ltype2, row.l2, row.pind, row.p1, row.p2)
  }

  /** `Item::lev`. */
  function Lev(it: Item): Level
  {
    Level(it.ltype1, it.l1, it.ltype2, it.l2)
  }

  /** `Item::tr`. */
  function Tr(it: Item): Trange
  {
    Trange(it.pind, it.p1, it.p2)
  }

  /** The item a level and a time range describe: the inverse of `Lev` and `Tr`. */
  function ItemOfLevTr(l: Level, t: Trange): Item
  {
    Item(l.ltype1, l.l1, l.ltype2, l.l2, t.pind, t.p1, t.p2)
  }

  /** `lev` and `tr` lose nothing: the item is recovered from them, and they from it. */
  lemma LevTrRoundTrip(it: Item, l: Level, t: Trange)
    ensures ItemOfLevTr(Lev(it), Tr(it)) == it
    ensures Lev(ItemOfLevTr(l, t)) == l && Tr(ItemOfLevTr(l, t)) == t
  {
  }

  /** `lev` and `tr` of the item built from a row are that row's seven stored components. */
  lemma ItemOfRowComponents(row: DBRow)
    ensures Lev(ItemOf(row)) == Level(row.ltype1, row.l1, row.ltype2, row.l2)
    ensures Tr(ItemOf(row)) == Trange(row.pind, row.p1, row.p2)
  {
  }

  // ------------------------------------------------------------ to_record

  /** The record keywords `to_record` writes; `Other` stands for every other keyword. */
  datatype Key = LevelType1 | L1 | LevelType2 | L2 | PIndicator | P1 | P2 | Other(n: int)

  /** The component of an item stored under a keyword; `MISSING_INT` for keywords it does not write. */
  function Component(it: Item, k: Key): int
  {
    match k
    case LevelType1 => it.ltype1
    case L1 => it.l1
    case LevelType2 => it.ltype2
    case L2 => it.l2
    case PIndicator => it.pind
    case P1 => it.p1
    case P2 => it.p2
    case Other(_) => MISSING_INT
  }

  /** One step of `to_record`: unset the keyword for a missing value, set it otherwise. */
  function SetOrUnset(rec: map<Key, int>, k: Key, v: int): (r: map<Key, int>)
    ensures v == MISSING_INT ==> k !in r
    ensures v != MISSING_INT ==> k in r && r[k] == v
    ensures forall o :: o != k ==> (o in r <==> o in rec) && (o in rec ==> r[o] == rec[o])
  {
    if v == MISSING_INT then rec - {k} else rec[k := v]
  }

  /** The keywords `to_record` writes, in the source's order. */
  const ITEM_KEYS: seq<Key> := [LevelType1, L1, LevelType2, L2, PIndicator, P1, P2]

  /** Set or unset each keyword of `keys` in turn, from the item's components. */
  function SetKeys(it: Item, rec: map<Key, int>, keys: seq<Key>): map<Key, int>
    decreases |keys|
  {
    if keys == [] then rec else SetKeys(it, SetOrUnset(rec, keys[0], Component(it, keys[0])), keys[1..])
  }

  /** Each keyword of `keys` ends up holding its component (unset when missing); any other keyword is kept. */
  lemma {:induction false} SetKeysEffect(it: Item, rec: map<Key, int>, keys: seq<Key>, k: Key)
    ensures k in keys ==>
      (Component(it, k) == MISSING_INT ==> k !in SetKeys(it, rec, keys)) &&
      (Component(it, k) != MISSING_INT ==> k in SetKeys(it, rec, keys) && SetKeys(it, rec, keys)[k] == Component(it, k))
    ensures k !in keys ==>
      (k in SetKeys(it, rec, keys) <==> k in rec) && (k in rec ==> SetKeys(it, rec, keys)[k] == rec[k])
    decreases |keys|
  {
    if keys != [] {
      var next := SetOrUnset(rec, keys[0], Component(it, keys[0]));
      SetKeysEffect(it, next, keys[1..], k);
      assert k in keys <==> k == keys[0] || k in keys[1..];
    }
  }

  /**
   * `Item::to_record`: one keyword per component, in the source's order. A
   * keyword whose component is missing is unset, any other keyword is set
   * to its component, and the rest of the record is kept.
   */
  function ToRecord(it: Item, rec: map<Key, int>): (r: map<Key, int>)
    ensures forall k: Key :: !k.Other? ==>
      (Component(it, k) == MISSING_INT ==> k !in r) &&
      (Component(it, k) != MISSING_INT ==> k in r && r[k] == Component(it, k))
    ensures forall n :: (Other(n) in r <==> Other(n) in rec) && (Other(n) in rec ==> r[Other(n)] == rec[Other(n)])
  {
    var r := SetKeys(it, rec, ITEM_KEYS);
    forall k: Key
      ensures !k.Other? ==>
        (Component(it, k) == MISSING_INT ==> k !in r) &&
        (Component(it, k) != MISSING_INT ==> k in r && r[k] == Component(it, k))
      ensures k.Other? ==> (k in r <==> k in rec) && (k in rec ==> r[k] == rec[k])
    {
      SetKeysEffect(it, rec, ITEM_KEYS, k);
    }
    r
  }

  /** Read a component back from a record: an unset keyword reads as `MISSING_INT`. */
  function ReadKey(rec: map<Key, int>, k: Key): int
  {
    if k in rec then rec[k] else MISSING_INT
  }

  /** Reading the seven keywords back from a record. */
  function ItemOfRecord(rec: map<Key, int>): Item
  {
    Item(ReadKey(rec, LevelType1), ReadKey(rec, L1), ReadKey(rec, LevelType2), ReadKey(rec, L2),
         ReadKey(rec, PIndicator), ReadKey(rec, P1), ReadKey(rec, P2))
  }

  /** Whatever the record held before, `to_record` stores the item so that it reads back unchanged. */
  lemma ToRecordReadsBack(it: Item, rec: map<Key, int>)
    ensures ItemOfRecord(ToRecord(it, rec)) == it
  {
    var r := ToRecord(it, rec);
    assert ReadKey(r, LevelType1) == Component(it, LevelType1);
    assert ReadKey(r, L1) == Component(it, L1);
    assert ReadKey(r, LevelType2) == Component(it, LevelType2);
    assert ReadKey(r, L2) == Component(it, L2);
    assert ReadKey(r, PIndicator) == Component(it, PIndicator);
    assert ReadKey(r, P1) == Component(it, P1);
    assert ReadKey(r, P2) == Component(it, P2);
  }

  // ------------------------------------------------------------ the table

  /** The row `LevTr::read` returns for an id: the first one carrying it, or none. */
  function FindRow(rows: seq<DBRow>, id: int): (r: Option<DBRow>)
    ensures r.None? <==> forall i :: 0 <= i < |rows| ==> rows[i].id != id
    ensures r.Some? ==> exists i :: 0 <= i < |rows| && rows[i] == r.value && r.value.id == id &&
                                    forall j :: 0 <= j < i ==> rows[j].id != id
  {
    if rows == [] then None
    else if rows[0].id == id then Some(rows[0])
    else
      var r := FindRow(rows[1..], id);
      assert forall i :: 1 <= i < |rows| ==> rows[i] == rows[1..][i - 1];
      r
  }

  /** What the cache returns for an id when it is consistent with the table: the item of that row. */
  function Lookup(rows: seq<DBRow>, id: int): Option<Item>
  {
    match FindRow(rows, id)
    case None => None
    case Some(row) => Some(ItemOf(row))
  }

  /** The `lev_tr` table, as seen by the cache: its rows and the number of single-row reads made. */
  class LevTrTable {
    var rows: seq<DBRow>
    ghost var readCount: nat

    constructor (rows: seq<DBRow>)
      ensures this.rows == rows && readCount == 0
    {
      this.rows := rows;
      readCount := 0;
    }

    /** `LevTr::read`: one query for a single row. */
    method Read(id: int) returns (r: Option<DBRow>)
      modifies this
      ensures rows == old(rows) && readCount == old(readCount) + 1
      ensures r == FindRow(rows, id)
    {
      r := FindRow(rows, id);
      readCount := readCount + 1;
    }

    /**
     * The table changing under the caches built on it: rows inserted or
     * deleted by the other operations of the v6 database, which are not
     * part of this model. A cache may be stale afterwards until it is
     * invalidated.
     */
    method Change(newRows: seq<DBRow>)
      modifies this
      ensures rows == newRows && readCount == old(readCount)
    {
      rows := newRows;
    }
  }

  /** `cache.insert`: a key already present keeps its value. */
  function Insert(cache: map<int, Item>, row: DBRow): (r: map<int, Item>)
    ensures r.Keys == cache.Keys + {row.id}
    ensures forall id :: id in cache ==> r[id] == cache[id]
    ensures row.id !in cache ==> r[row.id] == ItemOf(row)
  {
    if row.id in cache then cache else cache[row.id := ItemOf(row)]
  }

  /** The cache after `read_all` has inserted each remaining row in order. */
  function Prefetch(cache: map<int, Item>, rows: seq<DBRow>): (r: map<int, Item>)
    ensures forall id :: id in cache ==> id in r && r[id] == cache[id]
    ensures forall k :: 0 <= k < |rows| ==> rows[k].id in r
    decreases |rows|
  {
    if rows == [] then cache else Prefetch(Insert(cache, rows[0]), rows[1..])
  }

  /**
   * Prefetching keeps what the cache had and adds, for every other id in
   * the table, the item of the first row carrying it, and nothing else.
   */
  lemma {:induction false} PrefetchContents(cache: map<int, Item>, rows: seq<DBRow>, id: int)
    ensures id in cache ==> id in Prefetch(cache, rows) && Prefetch(cache, rows)[id] == cache[id]
    ensures id !in cache ==>
      (id in Prefetch(cache, rows) <==> FindRow(rows, id).Some?) &&
      (id in Prefetch(cache, rows) ==> Prefetch(cache, rows)[id] == ItemOf(FindRow(rows, id).value))
    decreases |rows|
  {
    if rows != [] {
      PrefetchContents(Insert(cache, rows[0]), rows[1..], id);
    }
  }

  /** A prefetched cache holds exactly the table's ids, each with the item `read` would give. */
  lemma PrefetchIsLookup(rows: seq<DBRow>, id: int)
    ensures id in Prefetch(map[], rows) <==> Lookup(rows, id).Some?
    ensures id in Prefetch(map[], rows) ==> Lookup(rows, id) == Some(Prefetch(map[], rows)[id])
  {
    PrefetchContents(map[], rows, id);
  }

  /**
   * A prefetched cache goes stale when the table's row for a cached id
   * changes: this is the state `invalidate` exists for.
   */
  lemma StaleAfterChange()
    ensures var before := [DBRow(1, 100, 50000, MISSING_INT, MISSING_INT, 254, 0, 0)];
      var after := [DBRow(1, 102, 2000, MISSING_INT, MISSING_INT, 254, 0, 0)];
      1 in Prefetch(map[], before) && Lookup(after, 1) != Some(Prefetch(map[], before)[1])
  {
    PrefetchIsLookup([DBRow(1, 100, 50000, MISSING_INT, MISSING_INT, 254, 0, 0)], 1);
  }

  // ------------------------------------------------------------ the cache

  /** `MapLevTrCache`. */
  class MapLevTrCache {
    const levtr: LevTrTable
    var cache: map<int, Item>

    /** Every cached item is the item of the row the table holds for its id. */
    ghost predicate Valid()
      reads this, levtr
    {
      forall id :: id in cache ==> Lookup(levtr.rows, id) == Some(cache[id])
    }

    /** The constructor prefetches every row of the table with `read_all`. */
    constructor (levtr: LevTrTable)
      ensures this.levtr == levtr && Valid()
      ensures cache == Prefetch(map[], levtr.rows)
    {
      this.levtr := levtr;
      var c: map<int, Item> := map[];
      var i := 0;
      while i < |levtr.rows|
        invariant 0 <= i <= |levtr.rows|
        invariant Prefetch(c, levtr.rows[i..]) == Prefetch(map[], levtr.rows)
      {
        assert levtr.rows[i..][1..] == levtr.rows[i + 1..];
        c := Insert(c, levtr.rows[i]);
        i := i + 1;
      }
      assert levtr.rows[i..] == [];
      cache := c;
      forall id | id in c ensures Lookup(levtr.rows, id) == Some(c[id]) {
        PrefetchIsLookup(levtr.rows, id);
      }
    }

    /**
     * `get`: a hit answers from the cache without reading the table; a miss
     * reads the table once and memoises a row it finds. Either way the
     * answer is the table's item for the id.
     */
    method Get(id: int) returns (r: Option<Item>)
      requires Valid()
      modifies this, levtr
      ensures Valid() && levtr.rows == old(levtr.rows)
      ensures r == Lookup(levtr.rows, id)
      ensures id in old(cache) ==> cache == old(cache) && levtr.readCount == old(levtr.readCount)
      ensures id !in old(cache) ==> levtr.readCount == old(levtr.readCount) + 1
      ensures id !in old(cache) && r.None? ==> cache == old(cache)
      ensures id !in old(cache) && r.Some? ==> cache == old(cache)[id := r.value]
    {
      if id in cache {
        return Some(cache[id]);
      }
      var row := levtr.Read(id);
      if row.None? {
        return None;
      }
      r := Some(ItemOf(row.value));
      cache := cache[id := r.value];
    }

    /** `to_rec`: false for an unknown id; otherwise the item is written into the record. */
    method ToRec(id: int, rec: map<Key, int>) returns (found: bool, out: map<Key, int>)
      requires Valid()
      modifies this, levtr
      ensures Valid() && levtr.rows == old(levtr.rows)
      ensures found <==> Lookup(levtr.rows, id).Some?
      ensures !found ==> out == rec
      ensures found ==> out == ToRecord(Lookup(levtr.rows, id).value, rec)
    {
      var i := Get(id);
      if i.None? {
        return false, rec;
      }
      return true, ToRecord(i.value, rec);
    }

    /** `to_level`: the row's level, or the all-missing `Level()` for an unknown id. */
    method ToLevel(id: int) returns (l: Level)
      requires Valid()
      modifies this, levtr
      ensures Valid() && levtr.rows == old(levtr.rows)
      ensures Lookup(levtr.rows, id).None? ==> l == DefaultLevel()
      ensures Lookup(levtr.rows, id).Some? ==> l == Lev(Lookup(levtr.rows, id).value)
    {
      var i := Get(id);
      if i.None? {
        return DefaultLevel();
      }
      return Lev(i.value);
    }

    /** `to_trange`: the row's time range, or the all-missing `Trange()` for an unknown id. */
    method ToTrange(id: int) returns (t: Trange)
      requires Valid()
      modifies this, levtr
      ensures Valid() && levtr.rows == old(levtr.rows)
      ensures Lookup(levtr.rows, id).None? ==> t == DefaultTrange()
      ensures Lookup(levtr.rows, id).Some? ==> t == Tr(Lookup(levtr.rows, id).value)
    {
      var i := Get(id);
      if i.None? {
        return DefaultTrange();
      }
      return Tr(i.value);
    }

    /**
     * `invalidate`: empty the cache, so that the next `get` of any id reads
     * the table. This works in any state, also on a cache gone stale after
     * `LevTrTable.Change`, and makes it valid again.
     */
    method Invalidate()
      modifies this
      ensures Valid() && cache == map[]
    {
      cache := map[];
    }
  }
}
