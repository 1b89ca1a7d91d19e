/**
 * Cursors over the contents of one message (`dballe/msg/cursor.h`):
 * `CursorStation` yields the station once, `CursorStationData` walks the
 * values of the station context, and `CursorData` walks the rows it builds
 * from the message's data contexts.
 *
 * The three cursors share one position logic: `at_start` before the first
 * `next()`, then an index `cur` into the values or rows, with `end` at the
 * length. As written, `next()` after the first call returns `cur == end`
 * once it has advanced (`NextAsWritten`); the cursors use the evidently
 * intended `cur != end` (`Step`).
 */
module MsgCursor {
  import opened Wrappers
  import opened Defs

  /** A value of a message context: its variable code and value. */
  datatype MsgVar = MsgVar(code: int, value: Option<string>)

  /** A context of a message: a level, a time range and their values, in order. */
  datatype MsgContext = MsgContext(level: Level, trange: Trange, values: seq<MsgVar>)

  /** The station a cursor reports: report name, coordinates and mobile station identifier. */
  datatype Station = Station(report: string, coords: Coord, ident: Option<string>)

  /** The parts of a `Msg` the cursors read. */
  datatype Msg = Msg(station: Station, datetime: Datetime, data: seq<MsgContext>)

  /** `WR_VAR_X`: bits 8 to 13 of a variable code. */
  function VarX(code: int): int
  {
    (code / 0x100) % 0x40
  }

  /** A station context: both its level and its time range are missing. */
  predicate IsStationContext(ctx: MsgContext)
  {
    ctx.level == DefaultLevel() && ctx.trange == DefaultTrange()
  }

  // ------------------------------------------------------------ position logic

  /** A cursor position: before the first `next()`, or at index `cur`. */
  datatype Pos = Pos(atStart: bool, cur: nat)

  const START: Pos := Pos(true, 0)

  /** `remaining()` with `n` items: all of them at start, else `end - cur`. */
  function RemainingAt(p: Pos, n: nat): int
  {
    if p.atStart then n else n - p.cur
  }

  /** `next()` as written: the first call answers true, a later one advances and answers `cur == end`. */
  function NextAsWritten(p: Pos, n: nat): (r: (Pos, bool))
    ensures p.atStart || p.cur <= n ==> r.0 == Step(p, n).0
    ensures !p.atStart && p.cur < n ==> r.1 == !Step(p, n).1
    ensures p.atStart ==> r.1
  {
    if p.atStart then (Pos(false, 0), true)
    else if p.cur == n then (p, false)
    else (Pos(false, p.cur + 1), p.cur + 1 == n)
  }

  /** `next()` as intended: answer whether, after moving, the cursor is on an item. */
  function Step(p: Pos, n: nat): (r: (Pos, bool))
    ensures !r.0.atStart
    ensures r.1 <==> r.0.cur < n
    ensures !p.atStart && p.cur <= n ==> r.0.cur <= n
  {
    if p.atStart then (Pos(false, 0), 0 < n)
    else if p.cur >= n then (p, false)
    else (Pos(false, p.cur + 1), p.cur + 1 < n)
  }

  /** The position after `k` calls of `next()` from the start, with the answer of the last one. */
  function Iterate(n: nat, k: nat): (Pos, bool)
    requires k >= 1
  {
    if k == 1 then Step(START, n) else Step(Iterate(n, k - 1).0, n)
  }

  /**
   * Iterating from the start visits every item once, in order: call `k`
   * answers true exactly for `k <= n`, and then stands on item `k - 1`.
   */
  lemma {:induction false} IterateVisitsAll(n: nat, k: nat)
    requires k >= 1
    ensures Iterate(n, k).1 <==> k <= n
    ensures k <= n ==> Iterate(n, k).0 == Pos(false, k - 1)
    ensures k > n ==> Iterate(n, k).0 == Pos(false, n)
  {
    if k > 1 {
      IterateVisitsAll(n, k - 1);
    }
  }

  /** On an item, `remaining()` counts the current item and those after it; each further `next()` lowers it by one. */
  lemma NextRemaining(p: Pos, n: nat)
    requires !p.atStart && p.cur < n
    ensures RemainingAt(p, n) >= 1
    ensures RemainingAt(Step(p, n).0, n) == RemainingAt(p, n) - 1
  {
  }

  /**
   * As written, `next()` stops one item early: over two items the second
   * call answers false although item 1 is there, and over no items the
   * first call answers true with nothing to read.
   */
  lemma NextAsWrittenStopsEarly()
    ensures NextAsWritten(START, 2) == (Pos(false, 0), true)
    ensures NextAsWritten(Pos(false, 0), 2) == (Pos(false, 1), false)
    ensures Step(Pos(false, 0), 2) == (Pos(false, 1), true)
    ensures NextAsWritten(START, 0).1 && !Step(START, 0).1
  {
  }

  // ------------------------------------------------------------ CursorStation

  /** `CursorStation`: yields the message's station exactly once. */
  class CursorStation {
    const station: Station
    const stationCtx: Option<MsgContext>
    var atStart: bool

    /** `stationCtx` is what `msg.find_station_context()` returns, which is not part of this model. */
    constructor (msg: Msg, stationCtx: Option<MsgContext>)
      ensures station == msg.station && this.stationCtx == stationCtx
      ensures atStart && Remaining() == 1
    {
      station := msg.station;
      this.stationCtx := stationCtx;
      atStart := true;
    }

    function Remaining(): (r: int)
      reads this
      ensures r == 1 <==> atStart
      ensures r == 0 <==> !atStart
    {
      if atStart then 1 else 0
    }

    /** `next()`: true the first time only. */
    method Next() returns (r: bool)
      modifies this
      ensures r <==> old(atStart)
      ensures !atStart && Remaining() == 0
    {
      if atStart {
        atStart := false;
        return true;
      }
      return false;
    }

    method Discard()
      modifies this
      ensures !atStart && Remaining() == 0
    {
      atStart := false;
    }

    /** `get_values`: the values of the station context, which must exist. */
    function GetValues(): (r: seq<MsgVar>)
      reads this
      requires stationCtx.Some?
      ensures r == stationCtx.value.values
    {
      stationCtx.value.values
    }
  }

  // ------------------------------------------------------------ CursorStationData

  /** `CursorStationData`: walks the values of the station context. */
  class CursorStationData {
    const station: Station
    const values: seq<MsgVar>
    var pos: Pos

    ghost predicate Valid()
      reads this
    {
      !pos.atStart ==> pos.cur <= |values|
    }

    /** `stationCtx` is the values of `msg.find_station_context()`, which the cursor dereferences. */
    constructor (msg: Msg, stationCtx: MsgContext)
      ensures Valid() && station == msg.station && values == stationCtx.values
      ensures pos == START && Remaining() == |values|
    {
      station := msg.station;
      values := stationCtx.values;
      pos := START;
    }

    function Remaining(): int
      reads this
    {
      RemainingAt(pos, |values|)
    }

    /** `next()`: true when the cursor has moved onto a value. */
    method Next() returns (r: bool)
      requires Valid()
      modifies this
      ensures Valid()
      ensures (pos, r) == Step(old(pos), |values|)
    {
      if pos.atStart {
        pos := Pos(false, 0);
        return 0 < |values|;
      } else if pos.cur == |values| {
        return false;
      }
      pos := Pos(false, pos.cur + 1);
      return pos.cur != |values|;
    }

    method Discard()
      modifies this
      ensures Valid() && pos == Pos(false, |values|) && Remaining() == 0
    {
      pos := Pos(false, |values|);
    }

    /** `get_varcode`/`get_var`: the current value. */
    function GetVar(): (r: MsgVar)
      reads this
      requires !pos.atStart && pos.cur < |values|
      ensures r in values && Remaining() >= 1
    {
      values[pos.cur]
    }
  }

  // ------------------------------------------------------------ CursorData

  /** `CursorDataRow`: a context and one of its values. */
  datatype Row = Row(level: Level, trange: Trange, v: MsgVar)

  /** The values of a station context that `CursorData` shows when merged: those with X outside 4..6. */
  predicate MergedStationVar(v: MsgVar)
  {
    VarX(v.code) < 4 || VarX(v.code) > 6
  }

  /** The rows of the first `k` values of a context that pass the filter of its kind. */
  function ValueRows(ctx: MsgContext, k: nat): seq<Row>
    requires k <= |ctx.values|
  {
    if k == 0 then []
    else
      var v := ctx.values[k - 1];
      ValueRows(ctx, k - 1) +
      (if !IsStationContext(ctx) || MergedStationVar(v) then [Row(ctx.level, ctx.trange, v)] else [])
  }

  /** The rows one context contributes: all its values, or for a station context, none or the merged ones. */
  function ContextRows(ctx: MsgContext, merged: bool): seq<Row>
  {
    if IsStationContext(ctx) && !merged then [] else ValueRows(ctx, |ctx.values|)
  }

  /** The rows of `CursorData` over a list of contexts, in order. */
  function RowsOf(data: seq<MsgContext>, merged: bool): seq<Row>
    decreases |data|
  {
    if data == [] then []
    else RowsOf(data[..|data| - 1], merged) + ContextRows(data[|data| - 1], merged)
  }

  /** A row of a context's first `k` values comes from one of those values, kept by the filter. */
  lemma {:induction false} ValueRowsMembership(ctx: MsgContext, k: nat, r: Row)
    requires k <= |ctx.values|
    ensures r in ValueRows(ctx, k) <==>
      r.level == ctx.level && r.trange == ctx.trange &&
      (exists j :: 0 <= j < k && ctx.values[j] == r.v) &&
      (!IsStationContext(ctx) || MergedStationVar(r.v))
  {
    if k > 0 {
      ValueRowsMembership(ctx, k - 1, r);
    }
  }

  /** Context `ctx` shows row `r`: the row carries the context's level, time range and one of its values, kept by the filter. */
  predicate Shows(ctx: MsgContext, merged: bool, r: Row)
  {
    r.level == ctx.level && r.trange == ctx.trange && r.v in ctx.values &&
    (!IsStationContext(ctx) || (merged && MergedStationVar(r.v)))
  }

  /** The rows one context contributes are exactly those it shows. */
  lemma ContextRowsMembership(ctx: MsgContext, merged: bool, r: Row)
    ensures r in ContextRows(ctx, merged) <==> Shows(ctx, merged, r)
  {
    ValueRowsMembership(ctx, |ctx.values|, r);
    assert r.v in ctx.values <==> exists j :: 0 <= j < |ctx.values| && ctx.values[j] == r.v;
  }

  /**
   * A row is shown exactly when its value belongs to a data context, or,
   * when merged, to a station context with X outside 4..6.
   */
  lemma {:induction false} RowsOfMembership(data: seq<MsgContext>, merged: bool, r: Row)
    ensures r in RowsOf(data, merged) <==> exists c :: 0 <= c < |data| && Shows(data[c], merged, r)
    decreases |data|
  {
    if data != [] {
      var init := data[..|data| - 1];
      var last := data[|data| - 1];
      assert RowsOf(data, merged) == RowsOf(init, merged) + ContextRows(last, merged);
      RowsOfMembership(init, merged, r);
      ContextRowsMembership(last, merged, r);
      if r in RowsOf(data, merged) {
        if r in RowsOf(init, merged) {
          var c :| 0 <= c < |init| && Shows(init[c], merged, r);
          assert data[c] == init[c];
        } else {
          assert Shows(data[|data| - 1], merged, r);
        }
      }
      if exists c :: 0 <= c < |data| && Shows(data[c], merged, r) {
        var c :| 0 <= c < |data| && Shows(data[c], merged, r);
        if c < |init| {
          assert Shows(init[c], merged, r);
        }
      }
    }
  }

  /** The rows of one context appended to `acc`, value by value. */
  method AppendContextRows(acc: seq<Row>, ctx: MsgContext, merged: bool) returns (r: seq<Row>)
    ensures r == acc + ContextRows(ctx, merged)
  {
    r := acc;
    if IsStationContext(ctx) && !merged {
      return;
    }
    var i := 0;
    while i < |ctx.values|
      invariant 0 <= i <= |ctx.values|
      invariant r == acc + ValueRows(ctx, i)
    {
      if !IsStationContext(ctx) || MergedStationVar(ctx.values[i]) {
        r := r + [Row(ctx.level, ctx.trange, ctx.values[i])];
      }
      i := i + 1;
    }
  }

  /** `CursorData`: walks the rows built from the message's contexts. */
  class CursorData {
    const station: Station
    const datetime: Datetime
    const rows: seq<Row>
    var pos: Pos
    /** The message's contexts and the merge flag the rows were built from. */
    ghost const data: seq<MsgContext>
    ghost const merged: bool

    /** The rows are those of `data`; it depends on constants only, so no method changes it. */
    ghost predicate Built()
    {
      rows == RowsOf(data, merged)
    }

    ghost predicate Valid()
      reads this
    {
      !pos.atStart ==> pos.cur <= |rows|
    }

    /**
     * Build one row per value of each data context, in order; a station
     * context contributes only when `merged`, and then only its values
     * with X outside 4..6.
     */
    constructor (msg: Msg, merged: bool)
      ensures Valid() && station == msg.station && datetime == msg.datetime
      ensures rows == RowsOf(msg.data, merged)
      ensures data == msg.data && this.merged == merged && Built()
      ensures pos == START && Remaining() == |rows|
    {
      station := msg.station;
      datetime := msg.datetime;
      data := msg.data;
      this.merged := merged;
      pos := START;
      var acc: seq<Row> := [];
      var c := 0;
      while c < |msg.data|
        invariant 0 <= c <= |msg.data|
        invariant acc == RowsOf(msg.data[..c], merged)
      {
        var ctx := msg.data[c];
        assert msg.data[..c + 1][..c] == msg.data[..c];
        acc := AppendContextRows(acc, ctx, merged);
        c := c + 1;
      }
      assert msg.data[..c] == msg.data;
      rows := acc;
    }

    function Remaining(): int
      reads this
    {
      RemainingAt(pos, |rows|)
    }

    /** `next()`: true when the cursor has moved onto a row. */
    method Next() returns (r: bool)
      requires Valid()
      modifies this
      ensures Valid()
      ensures (pos, r) == Step(old(pos), |rows|)
    {
      if pos.atStart {
        pos := Pos(false, 0);
        return 0 < |rows|;
      } else if pos.cur == |rows| {
        return false;
      }
      pos := Pos(false, pos.cur + 1);
      return pos.cur != |rows|;
    }

    method Discard()
      modifies this
      ensures Valid()
      ensures pos == Pos(false, |rows|) && Remaining() == 0
    {
      pos := Pos(false, |rows|);
    }

    /** `get_var`: the current row's value. */
    function GetVar(): (r: MsgVar)
      reads this
      requires Built() && !pos.atStart && pos.cur < |rows|
      ensures exists c ::
        0 <= c < |data| && r in data[c].values && (!IsStationContext(data[c]) || (merged && MergedStationVar(r)))
    {
      RowsOfMembership(data, merged, rows[pos.cur]);
      rows[pos.cur].v
    }

    /** `get_level`: the current row's context level. */
    function GetLevel(): (r: Level)
      reads this
      requires Built() && !pos.atStart && pos.cur < |rows|
      ensures exists c :: 0 <= c < |data| && data[c].level == r && rows[pos.cur].v in data[c].values
    {
      RowsOfMembership(data, merged, rows[pos.cur]);
      rows[pos.cur].level
    }

    /** `get_trange`: the current row's context time range. */
    function GetTrange(): (r: Trange)
      reads this
      requires Built() && !pos.atStart && pos.cur < |rows|
      ensures exists c :: 0 <= c < |data| && data[c].trange == r && rows[pos.cur].v in data[c].values
    {
      RowsOfMembership(data, merged, rows[pos.cur]);
      rows[pos.cur].trange
    }
  }
}
