/**
 * Adding the attributes of a datum to the v6 `attr` table
 * (`AttrV6::add` in `dballe/db/sql/attrv6.cc`): the defined attributes are
 * collected, in order, into an attribute list, and the backend's
 * `impl_add` runs once with the whole list, or not at all when the list is
 * empty.
 *
 * `impl_add` belongs to the backends and is not part of this model; each
 * call is recorded in the `calls` log.
 */
module AttrV6 {
  import opened Wrappers

  /** A variable or attribute as the database layer sees it: a code and an optional value. */
  datatype Var = Var(code: int, value: Option<string>)

  /** One entry of a `sql::AttributeList`: a code and a defined value. */
  datatype Entry = Entry(code: int, value: string)

  /** One call of `impl_add`. */
  datatype ImplAdd = ImplAdd(idData: int, attrs: seq<Entry>)

  /** The list `add` builds: one entry per variable with a value, in order. */
  function Defined(vars: seq<Var>): seq<Entry>
    decreases |vars|
  {
    if vars == [] then []
    else if vars[0].value.Some? then [Entry(vars[0].code, vars[0].value.value)] + Defined(vars[1..])
    else Defined(vars[1..])
  }

  /** An entry is in the list exactly when some variable with a value carries its code and value. */
  lemma {:induction false} DefinedMembership(vars: seq<Var>, e: Entry)
    ensures e in Defined(vars) <==> exists i :: 0 <= i < |vars| && vars[i] == Var(e.code, Some(e.value))
    decreases |vars|
  {
    if vars != [] {
      DefinedMembership(vars[1..], e);
      if e in Defined(vars[1..]) {
        var i :| 0 <= i < |vars[1..]| && vars[1..][i] == Var(e.code, Some(e.value));
        assert vars[i + 1] == Var(e.code, Some(e.value));
      }
      if exists i :: 0 <= i < |vars| && vars[i] == Var(e.code, Some(e.value)) {
        var i :| 0 <= i < |vars| && vars[i] == Var(e.code, Some(e.value));
        if i > 0 {
          assert vars[1..][i - 1] == vars[i];
        }
      }
    }
  }

  /** The list is empty exactly when no variable has a value. */
  lemma {:induction false} DefinedEmpty(vars: seq<Var>)
    ensures Defined(vars) == [] <==> forall i :: 0 <= i < |vars| ==> vars[i].value.None?
    decreases |vars|
  {
    if vars != [] {
      DefinedEmpty(vars[1..]);
      assert forall i :: 1 <= i < |vars| ==> vars[i] == vars[1..][i - 1];
    }
  }

  /** Collecting a concatenation collects each part in turn. */
  lemma {:induction false} DefinedAppend(a: seq<Var>, b: seq<Var>)
    ensures Defined(a + b) == Defined(a) + Defined(b)
    decreases |a|
  {
    if a == [] {
      assert a + b == b;
    } else {
      assert (a + b)[1..] == a[1..] + b;
      DefinedAppend(a[1..], b);
    }
  }

  /** The list never holds more entries than there are variables. */
  lemma {:induction false} DefinedLength(vars: seq<Var>)
    ensures |Defined(vars)| <= |vars|
    decreases |vars|
  {
    if vars != [] {
      DefinedLength(vars[1..]);
    }
  }

  /** The loop shared by both overloads of `add`: walk the variables, keeping the defined ones. */
  method Collect(vars: seq<Var>) returns (alist: seq<Entry>)
    ensures alist == Defined(vars)
  {
    alist := [];
    var i := 0;
    while i < |vars|
      invariant 0 <= i <= |vars|
      invariant alist == Defined(vars[..i])
    {
      assert vars[..i + 1] == vars[..i] + [vars[i]];
      DefinedAppend(vars[..i], [vars[i]]);
      if vars[i].value.Some? {
        alist := alist + [Entry(vars[i].code, vars[i].value.value)];
      }
      i := i + 1;
    }
    assert vars[..i] == vars;
  }

  /** An `AttrV6` table, with the log of the `impl_add` calls made on it. */
  class AttrV6Table {
    var calls: seq<ImplAdd>

    constructor ()
      ensures calls == []
    {
      calls := [];
    }

    /**
     * The common tail of both overloads: no call for an empty list,
     * otherwise exactly one call with `idData` and the whole list.
     */
    method AddList(idData: int, vars: seq<Var>)
      modifies this
      ensures Defined(vars) == [] ==> calls == old(calls)
      ensures Defined(vars) != [] ==> calls == old(calls) + [ImplAdd(idData, Defined(vars))]
    {
      var alist := Collect(vars);
      if alist == [] {
        return;
      }
      calls := calls + [ImplAdd(idData, alist)];
    }

    /** `add(int, const Record&)`: the record's variables, in the record's order. */
    method AddRecord(idData: int, recordVars: seq<Var>)
      modifies this
      ensures Defined(recordVars) == [] ==> calls == old(calls)
      ensures Defined(recordVars) != [] ==> calls == old(calls) + [ImplAdd(idData, Defined(recordVars))]
    {
      AddList(idData, recordVars);
    }

    /** `add(int, const Var&)`: the attributes of `var`, in the order of its `next_attr` chain. */
    method AddVar(idData: int, attrChain: seq<Var>)
      modifies this
      ensures Defined(attrChain) == [] ==> calls == old(calls)
      ensures Defined(attrChain) != [] ==> calls == old(calls) + [ImplAdd(idData, Defined(attrChain))]
    {
      AddList(idData, attrChain);
    }
  }
}
