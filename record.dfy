/**
 * The record store (`dballe/core/dba_record.c`): a fixed table of keyword
 * slots, each empty or holding a variable, plus a singly linked list of
 * variables identified by their varcode. The list is kept as the sequence
 * of its items from the head; "prepend" is `[x] + vars`.
 *
 * Variables are (varcode, value) pairs; a value of `None` is an undefined
 * value. Conversions between variable types are performed by the variable
 * layer, which is not part of this model: where the source converts a value
 * the converted result, or the conversion error, is a parameter.
 */
module Record {
  import opened Wrappers

  type Varcode = int

  datatype Var = Var(code: Varcode, value: Option<string>)

  // ------------------------------------------------------------------ list specification

  /** Position of the first item with `code`, as the list walks of the source find it. */
  function FirstIndex(vars: seq<Var>, code: Varcode): (r: Option<nat>)
    ensures r.Some? ==> r.value < |vars| && vars[r.value].code == code
                        && forall j :: 0 <= j < r.value ==> vars[j].code != code
    ensures r.None? <==> forall j :: 0 <= j < |vars| ==> vars[j].code != code
    decreases |vars|
  {
    if vars == [] then None
    else if vars[0].code == code then Some(0)
    else match FirstIndex(vars[1..], code)
      case None => None
      case Some(i) => Some(i + 1)
  }

  /** The list without its first item carrying `code` (`dba_record_remove_item`). */
  function RemoveFirst(vars: seq<Var>, code: Varcode): seq<Var>
    decreases |vars|
  {
    if vars == [] then []
    else if vars[0].code == code then vars[1..]
    else [vars[0]] + RemoveFirst(vars[1..], code)
  }

  /** Removing takes out exactly the first item with the code, and nothing when there is none. */
  lemma {:induction false} RemoveFirstRemoves(vars: seq<Var>, code: Varcode)
    ensures FirstIndex(vars, code).None? ==> RemoveFirst(vars, code) == vars
    ensures FirstIndex(vars, code).Some? ==>
              var i := FirstIndex(vars, code).value; RemoveFirst(vars, code) == vars[..i] + vars[i + 1..]
    decreases |vars|
  {
    if vars != [] && vars[0].code != code {
      RemoveFirstRemoves(vars[1..], code);
      match FirstIndex(vars[1..], code)
      case None =>
      case Some(i) =>
        ConsSplice(vars, i);
    }
  }

  /** Putting the head back in front of `vars[1..]` with item `i` cut out cuts item `i + 1` out of `vars`. */
  lemma ConsSplice(vars: seq<Var>, i: nat)
    requires i + 1 < |vars|
    ensures [vars[0]] + (vars[1..][..i] + vars[1..][i + 1..]) == vars[..i + 1] + vars[i + 2..]
  {
    assert [vars[0]] + vars[1..][..i] == vars[..i + 1];
    assert vars[1..][i + 1..] == vars[i + 2..];
  }

  /** The list after giving `code` the value `value`: the first item with the code is replaced, else a new item is prepended. */
  function SetFirst(vars: seq<Var>, code: Varcode, value: string): seq<Var>
  {
    match FirstIndex(vars, code)
    case Some(i) => vars[i := Var(code, Some(value))]
    case None => [Var(code, Some(value))] + vars
  }

  /** After `SetFirst`, the first item with the code holds the new value, and every other item is as before. */
  lemma {:induction false} SetFirstEffect(vars: seq<Var>, code: Varcode, value: string)
    ensures var r := SetFirst(vars, code, value);
      FirstIndex(r, code).Some? && r[FirstIndex(r, code).value] == Var(code, Some(value))
      && RemoveFirst(r, code) == RemoveFirst(vars, code)
  {
    var r := SetFirst(vars, code, value);
    RemoveFirstRemoves(vars, code);
    match FirstIndex(vars, code)
    case Some(i) =>
      FirstIsUnique(r, code, i);
      RemoveFirstRemoves(r, code);
      assert r[..i] == vars[..i];
      assert r[i + 1..] == vars[i + 1..];
    case None =>
      assert r[0].code == code && r[1..] == vars;
  }

  /** Removing the first item with a code shortens the list by one exactly when the code is there. */
  lemma RemoveFirstLength(vars: seq<Var>, code: Varcode)
    ensures |RemoveFirst(vars, code)| == if FirstIndex(vars, code).Some? then |vars| - 1 else |vars|
  {
    RemoveFirstRemoves(vars, code);
  }

  /** `dba_record_remove_dba_item` as written: the loop tests the head instead of the current item, so only a head item is ever removed. */
  function RemoveItemAtAsWritten(vars: seq<Var>, i: nat): (r: seq<Var>)
    ensures i < |vars| ==> (r == RemoveItemAt(vars, i) <==> i == 0)
    ensures i >= |vars| ==> r == vars
  {
    if vars == [] then vars
    else if i == 0 then vars[1..]
    else vars
  }

  /** `dba_record_remove_dba_item` as intended: the given item is unlinked. */
  function RemoveItemAt(vars: seq<Var>, i: nat): (r: seq<Var>)
    requires i < |vars|
    ensures |r| == |vars| - 1
    ensures forall j :: 0 <= j < |r| ==> r[j] == if j < i then vars[j] else vars[j + 1]
  {
    vars[..i] + vars[i + 1..]
  }

  /** A failed `var_set` on a variable that is not first in the list leaves its emptied item behind. */
  lemma RemoveItemAtAsWrittenKeepsItem()
    ensures var vars := [Var(1, Some("a")), Var(2, None)];
      |RemoveItemAtAsWritten(vars, 1)| == 2 && |RemoveItemAt(vars, 1)| == 1
  {
  }

  /** `min_with_undef`: the smaller of two values, where -1 means unset. */
  function MinWithUndef(v1: int, v2: int): (r: int)
    ensures v1 == -1 ==> r == v2
    ensures v1 != -1 && v2 == -1 ==> r == v1
    ensures v1 != -1 && v2 != -1 ==> r <= v1 && r <= v2 && (r == v1 || r == v2)
  {
    if v1 == -1 then v2
    else if v2 == -1 then v1
    else if v1 < v2 then v1 else v2
  }

  /** `max_with_undef`: the larger of two values, where -1 means unset. */
  function MaxWithUndef(v1: int, v2: int): (r: int)
    ensures v1 == -1 ==> r == v2
    ensures v1 != -1 && v2 == -1 ==> r == v1
    ensures v1 != -1 && v2 != -1 ==> r >= v1 && r >= v2 && (r == v1 || r == v2)
  {
    if v1 == -1 then v2
    else if v2 == -1 then v1
    else if v1 > v2 then v1 else v2
  }

  predicate IsLeap(y: int)
  {
    y % 4 == 0 && (y % 100 != 0 || y % 400 == 0)
  }

  /** `max_days`: days in month `m` of year `y`, from a table and the Gregorian leap rule. */
  function MaxDays(y: int, m: int): (r: int)
    requires 1 <= m <= 12
    ensures m == 2 ==> (r == 29 <==> IsLeap(y)) && 28 <= r <= 29
    ensures m != 2 ==> r == 30 + (m + m / 8) % 2
  {
    var days := [31, 28, 31, 30, 31, 30, 31, 31, 30, 31, 30, 31];
    if m != 2 then days[m - 1]
    else if IsLeap(y) then 29 else 28
  }

  // ------------------------------------------------------------------ date extremes

  function UnsetFrom(s: seq<int>, i: nat): bool
    requires 0 < i < |s|
  {
    s[i - 1] == -1 && s[i] != -1
  }

  /** The merged minimum and maximum of field i, before defaults are filled in. */
  function MergedMin(exact: seq<int>, mins: seq<int>, i: nat): int
    requires |exact| == 6 && |mins| == 6 && i < 6
  {
    MaxWithUndef(exact[i], mins[i])
  }

  function MergedMax(exact: seq<int>, maxs: seq<int>, i: nat): int
    requires |exact| == 6 && |maxs| == 6 && i < 6
  {
    MinWithUndef(exact[i], maxs[i])
  }

  /** The index of the first finer field that is set while the coarser one is unset, if any. */
  function FirstGap(exact: seq<int>, mins: seq<int>, maxs: seq<int>): (r: Option<nat>)
    requires |exact| == 6 && |mins| == 6 && |maxs| == 6
    ensures r.Some? ==> 0 < r.value < 6
  {
    FirstGapFrom(exact, mins, maxs, 1)
  }

  function FirstGapFrom(exact: seq<int>, mins: seq<int>, maxs: seq<int>, i: nat): (r: Option<nat>)
    requires |exact| == 6 && |mins| == 6 && |maxs| == 6 && 1 <= i <= 6
    ensures r.Some? ==> i <= r.value < 6 && Gap(exact, mins, maxs, r.value)
                        && forall j :: i <= j < r.value ==> !Gap(exact, mins, maxs, j)
    ensures r.None? ==> forall j :: i <= j < 6 ==> !Gap(exact, mins, maxs, j)
    decreases 6 - i
  {
    if i == 6 then None
    else if Gap(exact, mins, maxs, i) then Some(i)
    else FirstGapFrom(exact, mins, maxs, i + 1)
  }

  /** Field i is set in a merged extreme while field i-1 is not. */
  predicate Gap(exact: seq<int>, mins: seq<int>, maxs: seq<int>, i: nat)
    requires |exact| == 6 && |mins| == 6 && |maxs| == 6 && 0 < i < 6
  {
    (MergedMin(exact, mins, i - 1) == -1 && MergedMin(exact, mins, i) != -1)
    || (MergedMax(exact, maxs, i - 1) == -1 && MergedMax(exact, maxs, i) != -1)
  }

  /** A merged maximum month that `max_days` can index: unset (defaulting to 12) or 1..12. */
  predicate MaxDaysDefined(exact: seq<int>, maxs: seq<int>)
    requires |exact| == 6 && |maxs| == 6
  {
    var m := MergedMax(exact, maxs, 1);
    MergedMax(exact, maxs, 0) != -1 && MergedMax(exact, maxs, 2) == -1 ==> m == -1 || 1 <= m <= 12
  }

  /**
   * `dba_record_parse_date_extremes`, on the values read from the exact,
   * minimum and maximum keywords for year..second (-1 for an unset one).
   * It fills the two output arrays, stopping with a consistency error at
   * the first field that is set while the previous field is not.
   */
  method ParseDateExtremes(exact: seq<int>, mins: seq<int>, maxs: seq<int>, minvalues: array<int>, maxvalues: array<int>)
    returns (r: Result<()>)
    requires |exact| == 6 && |mins| == 6 && |maxs| == 6
    requires minvalues.Length >= 6 && maxvalues.Length >= 6 && minvalues != maxvalues
    requires MaxDaysDefined(exact, maxs)
    modifies minvalues, maxvalues
    ensures r.Err? <==> FirstGap(exact, mins, maxs).Some?
    ensures r.Err? ==> r.error.Consistency?
    ensures r.Ok? ==> minvalues[..6] == DateMinimum(exact, mins) && maxvalues[..6] == DateMaximum(exact, maxs)
    ensures forall j :: 6 <= j < minvalues.Length ==> minvalues[j] == old(minvalues[j])
    ensures forall j :: 6 <= j < maxvalues.Length ==> maxvalues[j] == old(maxvalues[j])
  {
    var ok := MergeExtremes(exact, mins, maxs, minvalues, maxvalues);
    if !ok {
      return Err(Consistency("date extremes are unset but finer extremes are set"));
    }
    FillMinimum(exact, mins, minvalues);
    FillMaximum(exact, maxs, maxvalues);
    r := Ok(());
  }

  /** The merging loop of `parse_date_extremes`, stopping at the first gap. */
  method MergeExtremes(exact: seq<int>, mins: seq<int>, maxs: seq<int>, minvalues: array<int>, maxvalues: array<int>)
    returns (ok: bool)
    requires |exact| == 6 && |mins| == 6 && |maxs| == 6
    requires minvalues.Length >= 6 && maxvalues.Length >= 6 && minvalues != maxvalues
    modifies minvalues, maxvalues
    ensures ok <==> FirstGap(exact, mins, maxs).None?
    ensures ok ==> minvalues[..6] == Merged(exact, mins, true) && maxvalues[..6] == Merged(exact, maxs, false)
    ensures forall j :: 6 <= j < minvalues.Length ==> minvalues[j] == old(minvalues[j])
    ensures forall j :: 6 <= j < maxvalues.Length ==> maxvalues[j] == old(maxvalues[j])
  {
    var i := 0;
    while i < 6
      invariant 0 <= i <= 6
      invariant forall j :: 0 <= j < i ==> minvalues[j] == MergedMin(exact, mins, j)
      invariant forall j :: 0 <= j < i ==> maxvalues[j] == MergedMax(exact, maxs, j)
      invariant forall j :: 1 <= j < i ==> !Gap(exact, mins, maxs, j)
      invariant forall j :: 6 <= j < minvalues.Length ==> minvalues[j] == old(minvalues[j])
      invariant forall j :: 6 <= j < maxvalues.Length ==> maxvalues[j] == old(maxvalues[j])
    {
      minvalues[i] := MaxWithUndef(exact[i], mins[i]);
      maxvalues[i] := MinWithUndef(exact[i], maxs[i]);
      if i > 0 && ((minvalues[i - 1] == -1 && minvalues[i] != -1) || (maxvalues[i - 1] == -1 && maxvalues[i] != -1)) {
        assert Gap(exact, mins, maxs, i);
        return false;
      }
      i := i + 1;
    }
    assert minvalues[..6] == Merged(exact, mins, true);
    assert maxvalues[..6] == Merged(exact, maxs, false);
    ok := true;
  }

  /** The six merged minima (`lower`) or maxima, before defaults are filled in. */
  function Merged(exact: seq<int>, bounds: seq<int>, lower: bool): (r: seq<int>)
    requires |exact| == 6 && |bounds| == 6
    ensures |r| == 6
  {
    seq(6, i requires 0 <= i < 6 => if lower then MergedMin(exact, bounds, i) else MergedMax(exact, bounds, i))
  }

  /** The default filling of the lower bound at the end of `parse_date_extremes`. */
  method FillMinimum(exact: seq<int>, mins: seq<int>, minvalues: array<int>)
    requires |exact| == 6 && |mins| == 6 && minvalues.Length >= 6
    requires minvalues[..6] == Merged(exact, mins, true)
    modifies minvalues
    ensures minvalues[..6] == DateMinimum(exact, mins)
    ensures forall j :: 6 <= j < minvalues.Length ==> minvalues[j] == old(minvalues[j])
  {
    if minvalues[0] != -1 {
      minvalues[1] := if minvalues[1] != -1 then minvalues[1] else 1;
      minvalues[2] := if minvalues[2] != -1 then minvalues[2] else 1;
      minvalues[3] := if minvalues[3] != -1 then minvalues[3] else 0;
      minvalues[4] := if minvalues[4] != -1 then minvalues[4] else 0;
      minvalues[5] := if minvalues[5] != -1 then minvalues[5] else 0;
    }
  }

  /** The default filling of the upper bound at the end of `parse_date_extremes`. */
  method FillMaximum(exact: seq<int>, maxs: seq<int>, maxvalues: array<int>)
    requires |exact| == 6 && |maxs| == 6 && maxvalues.Length >= 6 && MaxDaysDefined(exact, maxs)
    requires maxvalues[..6] == Merged(exact, maxs, false)
    modifies maxvalues
    ensures maxvalues[..6] == DateMaximum(exact, maxs)
    ensures forall j :: 6 <= j < maxvalues.Length ==> maxvalues[j] == old(maxvalues[j])
  {
    if maxvalues[0] != -1 {
      maxvalues[1] := if maxvalues[1] != -1 then maxvalues[1] else 12;
      maxvalues[2] := if maxvalues[2] != -1 then maxvalues[2] else MaxDays(maxvalues[0], maxvalues[1]);
      maxvalues[3] := if maxvalues[3] != -1 then maxvalues[3] else 23;
      maxvalues[4] := if maxvalues[4] != -1 then maxvalues[4] else 59;
      maxvalues[5] := if maxvalues[5] != -1 then maxvalues[5] else 59;
    }
  }

  /** `v`, or `d` where `v` is unset (-1). */
  function OrDefault(v: int, d: int): int
  {
    if v != -1 then v else d
  }

  /** The lower date bound produced on success: merged minima, with defaults 1,1,0,0,0 below a set year. */
  function DateMinimum(exact: seq<int>, mins: seq<int>): (r: seq<int>)
    requires |exact| == 6 && |mins| == 6
    ensures |r| == 6
  {
    var m := Merged(exact, mins, true);
    if m[0] == -1 then m
    else [m[0], OrDefault(m[1], 1), OrDefault(m[2], 1), OrDefault(m[3], 0), OrDefault(m[4], 0), OrDefault(m[5], 0)]
  }

  /** The upper date bound produced on success: merged maxima, with defaults 12, month length, 23, 59, 59 below a set year. */
  function DateMaximum(exact: seq<int>, maxs: seq<int>): (r: seq<int>)
    requires |exact| == 6 && |maxs| == 6 && MaxDaysDefined(exact, maxs)
    ensures |r| == 6
  {
    var m := Merged(exact, maxs, false);
    if m[0] == -1 then m
    else
      var month := OrDefault(m[1], 12);
      [m[0], month, if m[2] != -1 then m[2] else MaxDays(m[0], month), OrDefault(m[3], 23), OrDefault(m[4], 59), OrDefault(m[5], 59)]
  }

  /**
   * Without a consistency error and with a set year, both bounds are fully
   * set, and a bound is never below the exact value nor beyond it.
   */
  lemma DateBoundsComplete(exact: seq<int>, mins: seq<int>, maxs: seq<int>)
    requires |exact| == 6 && |mins| == 6 && |maxs| == 6 && MaxDaysDefined(exact, maxs)
    requires FirstGap(exact, mins, maxs).None?
    ensures MergedMin(exact, mins, 0) != -1 ==> forall i :: 0 <= i < 6 ==> DateMinimum(exact, mins)[i] != -1
    ensures MergedMax(exact, maxs, 0) != -1 ==> forall i :: 0 <= i < 6 ==> DateMaximum(exact, maxs)[i] != -1
    ensures forall i :: 0 <= i < 6 && exact[i] != -1 ==>
              DateMinimum(exact, mins)[i] >= exact[i] && DateMaximum(exact, maxs)[i] <= exact[i]
  {
  }

  /** Without a year nothing below it may be set, so an unset year leaves both bounds fully unset. */
  lemma NoYearNoBounds(exact: seq<int>, mins: seq<int>, maxs: seq<int>)
    requires |exact| == 6 && |mins| == 6 && |maxs| == 6 && MaxDaysDefined(exact, maxs)
    requires FirstGap(exact, mins, maxs).None?
    ensures MergedMin(exact, mins, 0) == -1 ==> forall i :: 0 <= i < 6 ==> DateMinimum(exact, mins)[i] == -1
    ensures MergedMax(exact, maxs, 0) == -1 ==> forall i :: 0 <= i < 6 ==> DateMaximum(exact, maxs)[i] == -1
  {
    assert forall j :: 1 <= j < 6 ==> !Gap(exact, mins, maxs, j);
    if MergedMin(exact, mins, 0) == -1 {
      assert !Gap(exact, mins, maxs, 1);
      assert !Gap(exact, mins, maxs, 2);
      assert !Gap(exact, mins, maxs, 3);
      assert !Gap(exact, mins, maxs, 4);
      assert !Gap(exact, mins, maxs, 5);
    }
  }

  // ------------------------------------------------------------------ the record

  /** `struct _dba_record`. */
  class DbaRecord {
    /** Size of the keyword table (`DBA_KEY_COUNT`). */
    const keyCount: nat
    var keydata: seq<Option<Var>>
    var vars: seq<Var>

    ghost predicate Valid()
      reads this
    {
      |keydata| == keyCount
    }

    /** `dba_record_create`: every slot empty, no variables. */
    constructor (keyCount: nat)
      ensures Valid() && this.keyCount == keyCount
      ensures forall k :: 0 <= k < keyCount ==> keydata[k].None?
      ensures vars == []
    {
      this.keyCount := keyCount;
      keydata := seq(keyCount, _ => None);
      vars := [];
    }

    /** The walk shared by `has_item`, `get_item` and `var_peek`: the first item with the code. */
    method FindItem(code: Varcode) returns (r: Option<nat>)
      ensures r == FirstIndex(vars, code)
    {
      var i := 0;
      while i < |vars|
        invariant 0 <= i <= |vars|
        invariant forall j :: 0 <= j < i ==> vars[j].code != code
      {
        if vars[i].code == code {
          assert FirstIndex(vars, code) == Some(i) by {
            FirstIsUnique(vars, code, i);
          }
          return Some(i);
        }
        i := i + 1;
      }
      return None;
    }

    /** `dba_record_var_peek`: the first variable with the code, if any. */
    method VarPeek(code: Varcode) returns (r: Option<Var>)
      ensures r.Some? <==> exists j :: 0 <= j < |vars| && vars[j].code == code
      ensures r.Some? ==> FirstIndex(vars, code).Some? && r.value == vars[FirstIndex(vars, code).value]
      ensures r.Some? ==> r.value.code == code
    {
      var i := FindItem(code);
      if i.Some? {
        return Some(vars[i.value]);
      }
      return None;
    }

    /** `get_var`: the first variable with the code, or a not-found error. */
    method GetVar(code: Varcode) returns (r: Result<Var>)
      ensures r.Err? <==> forall j :: 0 <= j < |vars| ==> vars[j].code != code
      ensures r.Err? ==> r.error.NotFound?
      ensures r.Ok? ==> FirstIndex(vars, code).Some? && r.value == vars[FirstIndex(vars, code).value]
    {
      var i := FindItem(code);
      if i.None? {
        return Err(NotFound("looking for parameter"));
      }
      return Ok(vars[i.value]);
    }

    /** `dba_record_contains_var`. */
    method ContainsVar(code: Varcode) returns (found: bool)
      ensures found <==> exists j :: 0 <= j < |vars| && vars[j].code == code
    {
      var i := FindItem(code);
      found := i.Some?;
    }

    /** `dba_record_key_peek`: the slot's variable; nothing for a keyword out of range. */
    function KeyPeek(k: int): (r: Option<Var>)
      reads this
      requires Valid()
      ensures !(0 <= k < keyCount) ==> r.None?
      ensures 0 <= k < keyCount ==> r == keydata[k]
    {
      if 0 <= k < keyCount then keydata[k] else None
    }

    /** `get_key`: not found for a keyword out of range or an empty slot. */
    method GetKey(k: int) returns (r: Result<Var>)
      requires Valid()
      ensures r.Err? <==> !(0 <= k < keyCount) || keydata[k].None?
      ensures r.Err? ==> r.error.NotFound?
      ensures r.Ok? ==> Some(r.value) == keydata[k]
    {
      if k < 0 || k >= keyCount {
        return Err(NotFound("keyword is not in the range of valid keywords"));
      }
      if keydata[k].None? {
        return Err(NotFound("looking for parameter"));
      }
      return Ok(keydata[k].value);
    }

    /** `dba_record_contains_key`. */
    method ContainsKey(k: int) returns (r: Result<bool>)
      requires Valid()
      ensures r.Err? <==> !(0 <= k < keyCount)
      ensures r.Err? ==> r.error.NotFound?
      ensures r.Ok? ==> (r.value <==> keydata[k].Some?)
    {
      if k < 0 || k >= keyCount {
        return Err(NotFound("looking for informations about parameter"));
      }
      return Ok(keydata[k].Some?);
    }

    /** `dba_record_obtain_item`: the first item with the code, or a new empty item prepended. */
    method ObtainItem(code: Varcode) returns (i: nat, created: bool)
      modifies this
      ensures keydata == old(keydata)
      ensures created <==> old(FirstIndex(vars, code)).None?
      ensures !created ==> vars == old(vars) && Some(i) == FirstIndex(vars, code)
      ensures created ==> i == 0 && vars == [Var(code, None)] + old(vars)
      ensures i < |vars| && vars[i].code == code
    {
      var found := FindItem(code);
      if found.Some? {
        return found.value, false;
      }
      vars := [Var(code, None)] + vars;
      return 0, true;
    }

    /** `dba_record_rollback_obtain`: unlink the head of the list. */
    method RollbackObtain()
      requires vars != []
      modifies this
      ensures keydata == old(keydata) && vars == old(vars[1..])
    {
      vars := vars[1..];
    }

    /** `dba_record_remove_item`: unlink the first item with the code; no-op when there is none. */
    method RemoveItem(code: Varcode)
      modifies this
      ensures keydata == old(keydata)
      ensures vars == RemoveFirst(old(vars), code)
    {
      RemoveFirstRemoves(vars, code);
      if vars == [] {
        return;
      }
      if vars[0].code == code {
        vars := vars[1..];
        return;
      }
      var cur := 0;
      while cur + 1 < |vars|
        invariant 0 <= cur < |vars|
        invariant vars == old(vars) && keydata == old(keydata)
        invariant forall j :: 0 <= j <= cur ==> vars[j].code != code
      {
        if vars[cur + 1].code == code {
          FirstIsUnique(vars, code, cur + 1);
          vars := vars[..cur + 1] + vars[cur + 2..];
          return;
        }
        cur := cur + 1;
      }
      assert FirstIndex(vars, code).None?;
    }

    /** `dba_record_clear_vars`: unlink items from the head until the list is empty. */
    method ClearVars()
      modifies this
      ensures keydata == old(keydata) && vars == []
    {
      while vars != []
        invariant keydata == old(keydata)
        decreases |vars|
      {
        vars := vars[1..];
      }
    }

    /** `dba_record_clear`: empty every keyword slot, then the variable list. */
    method Clear()
      requires Valid()
      modifies this
      ensures Valid()
      ensures forall k :: 0 <= k < keyCount ==> keydata[k].None?
      ensures vars == []
    {
      var i := 0;
      while i < keyCount
        invariant 0 <= i <= keyCount && |keydata| == keyCount
        invariant forall k :: 0 <= k < i ==> keydata[k].None?
      {
        if keydata[i].Some? {
          keydata := keydata[i := None];
        }
        i := i + 1;
      }
      ClearVars();
    }

    /**
     * `dba_record_copy`: make this record an exact copy of `source`, slot by
     * slot and item by item in the same order; copying onto itself does nothing.
     */
    method CopyFrom(source: DbaRecord)
      requires Valid() && source.Valid() && source.keyCount == keyCount
      modifies this
      ensures Valid()
      ensures keydata == old(source.keydata) && vars == old(source.vars)
    {
      if source == this {
        return;
      }
      var i := 0;
      while i < keyCount
        invariant 0 <= i <= keyCount && |keydata| == keyCount
        invariant keydata[..i] == source.keydata[..i]
      {
        keydata := keydata[i := source.keydata[i]];
        i := i + 1;
      }
      assert keydata == keydata[..keyCount];
      ClearVars();
      var c := 0;
      while c < |source.vars|
        invariant 0 <= c <= |source.vars|
        invariant vars == source.vars[..c] && keydata == source.keydata
      {
        vars := vars + [source.vars[c]];
        c := c + 1;
      }
    }

    /**
     * `dba_record_add`: every non-empty slot of `source` replaces the slot
     * here, and copies of `source`'s variables are appended at the tail.
     * Adding a record to itself never terminates in the source.
     */
    method AddFrom(source: DbaRecord)
      requires Valid() && source.Valid() && source.keyCount == keyCount && source != this
      modifies this
      ensures Valid()
      ensures forall k :: 0 <= k < keyCount ==>
                keydata[k] == if source.keydata[k].Some? then source.keydata[k] else old(keydata[k])
      ensures vars == old(vars) + source.vars
    {
      var i := 0;
      while i < keyCount
        invariant 0 <= i <= keyCount && |keydata| == keyCount
        invariant forall k :: 0 <= k < i ==>
                    keydata[k] == if source.keydata[k].Some? then source.keydata[k] else old(keydata[k])
        invariant forall k :: i <= k < keyCount ==> keydata[k] == old(keydata[k])
        invariant vars == old(vars)
      {
        if source.keydata[i].Some? {
          keydata := keydata[i := source.keydata[i]];
        }
        i := i + 1;
      }
      var c := 0;
      while c < |source.vars|
        invariant 0 <= c <= |source.vars|
        invariant vars == old(vars) + source.vars[..c]
        invariant |keydata| == keyCount
        invariant forall k :: 0 <= k < keyCount ==>
                    keydata[k] == if source.keydata[k].Some? then source.keydata[k] else old(keydata[k])
      {
        vars := vars + [source.vars[c]];
        c := c + 1;
      }
      assert source.vars[..|source.vars|] == source.vars;
    }

    /**
     * `dba_record_key_set`: the slot's old variable is dropped, then the
     * variable converted to the keyword's type (`converted`) is stored.
     */
    method KeySet(k: int, converted: Result<Var>) returns (r: Result<()>)
      requires Valid()
      modifies this
      ensures Valid() && vars == old(vars)
      ensures !(0 <= k < keyCount) ==> r.Err? && r.error.NotFound? && keydata == old(keydata)
      ensures 0 <= k < keyCount ==>
                keydata == old(keydata)[k := if converted.Ok? then Some(converted.value) else None]
                && (r.Ok? <==> converted.Ok?)
    {
      if k < 0 || k >= keyCount {
        return Err(NotFound("keyword is not in the range of valid keywords"));
      }
      if keydata[k].Some? {
        keydata := keydata[k := None];
      }
      if converted.Err? {
        return Err(converted.error);
      }
      keydata := keydata[k := Some(converted.value)];
      return Ok(());
    }

    /**
     * `dba_record_key_seti`/`setd`/`setc`: set the value of the slot's
     * variable, creating one with the keyword's own varcode if the slot is
     * empty. `value` is the value as the variable stores it.
     */
    method KeySetValue(k: int, keywordCode: Varcode, value: string) returns (r: Result<()>)
      requires Valid()
      modifies this
      ensures Valid() && vars == old(vars)
      ensures !(0 <= k < keyCount) ==> r.Err? && r.error.NotFound? && keydata == old(keydata)
      ensures 0 <= k < keyCount ==> r.Ok? && keydata[k].Some? && keydata[k].value.value == Some(value)
      ensures 0 <= k < keyCount ==> keydata[k].value.code == if old(keydata[k]).Some? then old(keydata[k]).value.code else keywordCode
      ensures 0 <= k < keyCount ==> forall j :: 0 <= j < keyCount && j != k ==> keydata[j] == old(keydata[j])
    {
      if k < 0 || k >= keyCount {
        return Err(NotFound("keyword is not in the range of valid keywords"));
      }
      if keydata[k].Some? {
        keydata := keydata[k := Some(Var(keydata[k].value.code, Some(value)))];
      } else {
        keydata := keydata[k := Some(Var(keywordCode, Some(value)))];
      }
      return Ok(());
    }

    /** `dba_record_key_unset`: empty the slot; doing it again changes nothing. */
    method KeyUnset(k: int) returns (r: Result<()>)
      requires Valid()
      modifies this
      ensures Valid() && vars == old(vars)
      ensures !(0 <= k < keyCount) ==> r.Err? && r.error.NotFound? && keydata == old(keydata)
      ensures 0 <= k < keyCount ==> r.Ok? && keydata == old(keydata)[k := None]
    {
      if k < 0 || k >= keyCount {
        return Err(NotFound("keyword is not in the range of valid keywords"));
      }
      if keydata[k].Some? {
        keydata := keydata[k := None];
      }
      return Ok(());
    }

    /**
     * `dba_record_var_set`: an undefined value removes the first item with
     * the code; a defined one is stored in the first item with the code (or
     * a new head item). When the variable has another code it is converted
     * first (`converted`); if that fails the obtained item is unlinked.
     */
    method VarSet(code: Varcode, v: Var, converted: Result<string>) returns (r: Result<()>)
      modifies this
      ensures keydata == old(keydata)
      ensures v.value.None? ==> r.Ok? && vars == RemoveFirst(old(vars), code)
      ensures v.value.Some? && v.code == code ==> r.Ok? && vars == SetFirst(old(vars), code, v.value.value)
      ensures v.value.Some? && v.code != code && converted.Ok? ==>
                r.Ok? && vars == SetFirst(old(vars), code, converted.value)
      ensures v.value.Some? && v.code != code && converted.Err? ==>
                r.Err? && vars == RemoveFirst(old(vars), code)
    {
      if v.value.None? {
        RemoveItem(code);
        return Ok(());
      }
      var i, created := ObtainItem(code);
      var value: string;
      if v.code == code {
        value := v.value.value;
      } else if converted.Err? {
        // fail1: unlink the item that was obtained
        assert vars[i].code == code;
        RemoveFirstRemoves(old(vars), code);
        ghost var before := vars;
        vars := RemoveItemAt(vars, i);
        if created {
          assert vars == old(vars);
        } else {
          assert vars == before[..i] + before[i + 1..];
        }
        return Err(converted.error);
      } else {
        value := converted.value;
      }
      vars := vars[i := Var(code, Some(value))];
      return Ok(());
    }

    /** `dba_record_var_set_direct`: `var_set` keyed by the variable's own code. */
    method VarSetDirect(v: Var) returns (r: Result<()>)
      modifies this
      ensures r.Ok? && keydata == old(keydata)
      ensures v.value.None? ==> vars == RemoveFirst(old(vars), v.code)
      ensures v.value.Some? ==> vars == SetFirst(old(vars), v.code, v.value.value)
    {
      if v.value.None? {
        RemoveItem(v.code);
      } else {
        var i, created := ObtainItem(v.code);
        vars := vars[i := v];
      }
      return Ok(());
    }

    /**
     * `dba_record_var_seti`/`setd`/`setc`: store `encoded` (the value as
     * the variable layer encodes it, or its error) in the first item with
     * the code. On an error only an item created by this call is unlinked.
     */
    method VarSetValue(code: Varcode, encoded: Result<string>) returns (r: Result<()>)
      modifies this
      ensures keydata == old(keydata)
      ensures encoded.Ok? ==> r.Ok? && vars == SetFirst(old(vars), code, encoded.value)
      ensures encoded.Err? ==> r.Err? && vars == old(vars)
    {
      var i, created := ObtainItem(code);
      if encoded.Err? {
        if created {
          RollbackObtain();
        }
        return Err(encoded.error);
      }
      vars := vars[i := Var(code, Some(encoded.value))];
      return Ok(());
    }

    /** `dba_record_var_unset`: remove the first item with the code. */
    method VarUnset(code: Varcode) returns (r: Result<()>)
      modifies this
      ensures r.Ok? && keydata == old(keydata)
      ensures vars == RemoveFirst(old(vars), code)
    {
      RemoveItem(code);
      return Ok(());
    }
  }

  /** An index where the code first appears, given that no earlier item has it, is the first index. */
  lemma FirstIsUnique(vars: seq<Var>, code: Varcode, i: nat)
    requires i < |vars| && vars[i].code == code
    requires forall j :: 0 <= j < i ==> vars[j].code != code
    ensures FirstIndex(vars, code) == Some(i)
  {
  }

  /**
   * The error path of `var_seti` as written: the rollback unlinks the head
   * of the list whether or not this call created it.
   */
  function VarSetValueFailedAsWritten(vars: seq<Var>, code: Varcode): (r: seq<Var>)
    ensures FirstIndex(vars, code).None? ==> r == vars
    ensures FirstIndex(vars, code).Some? ==> vars != [] && r == vars[1..]
  {
    var obtained := if FirstIndex(vars, code).Some? then vars else [Var(code, None)] + vars;
    obtained[1..]
  }

  /** A failed `var_seti` on a variable already in second place drops the unrelated first variable. */
  lemma VarSetValueFailedDropsHead()
    ensures var vars := [Var(1, Some("10")), Var(2, Some("20"))];
      VarSetValueFailedAsWritten(vars, 2) == [Var(2, Some("20"))]
  {
  }
}
