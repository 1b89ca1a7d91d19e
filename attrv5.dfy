/**
 * The ODBC access to the v5 `attr` table (`ODBCAttrV5` in
 * `dballe/db/odbc/attrv5.cc`): the statement parameters `id_context`,
 * `id_var`, `type`, the 256-character `value` buffer and its length
 * indicator are set field by field, then `insert` stores the attribute, as
 * a single upsert on most servers and as an UPDATE followed, when it
 * touched no row, by an INSERT on PostgreSQL; `load` attaches to a variable
 * every attribute stored for it.
 *
 * The table is an object of its own (`AttrTable`), a map from the key
 * (id_context, id_var, type) to the stored value, where `None` is SQL NULL.
 */
module AttrV5 {
  import opened Wrappers

  /** The server behind the ODBC connection. */
  datatype ServerType = MySQL | SQLite | Oracle | Postgres

  /** ODBC's `SQL_NULL_DATA` length indicator. */
  const SQL_NULL_DATA: int := -1
  /** `sizeof(value)`: 255 characters and the terminating NUL. */
  const VALUE_SIZE: nat := 256
  /** The longest value that fits in the buffer. */
  const MAX_VALUE_LEN: nat := 255

  /** The primary key of an `attr` row. */
  datatype AttrKey = AttrKey(idContext: int, idVar: int, attrType: int)

  /** `strlen`: the characters before the first NUL. */
  function CStrLen(s: string): (n: nat)
    ensures n <= |s|
    ensures forall i :: 0 <= i < n ==> s[i] != '\0'
    ensures n < |s| ==> s[n] == '\0'
  {
    if s == [] || s[0] == '\0' then 0 else 1 + CStrLen(s[1..])
  }

  /** The value the buffer holds after `set_value(s)`: the C string, cut at 255 characters. */
  function Truncated(s: string): (r: string)
    ensures |r| <= MAX_VALUE_LEN
    ensures |r| <= |s| && r == s[..|r|]
    ensures '\0' !in r
    ensures |r| < MAX_VALUE_LEN ==> |r| == CStrLen(s)
  {
    var n := CStrLen(s);
    if n > MAX_VALUE_LEN then s[..MAX_VALUE_LEN] else s[..n]
  }

  /** A value that is already a short C string is stored whole, and truncating twice changes nothing. */
  lemma TruncatedProperties(s: string)
    ensures |s| <= MAX_VALUE_LEN && '\0' !in s ==> Truncated(s) == s
    ensures Truncated(Truncated(s)) == Truncated(s)
  {
    if |s| <= MAX_VALUE_LEN && '\0' !in s {
      assert CStrLen(s) == |s|;
    }
    var t := Truncated(s);
    assert CStrLen(t) == |t|;
  }

  /** The `attr` table. */
  class AttrTable {
    var rows: map<AttrKey, Option<string>>

    constructor (rows: map<AttrKey, Option<string>>)
      ensures this.rows == rows
    {
      this.rows := rows;
    }

    /** The replace statement of MySQL, SQLite and Oracle: insert the row, or overwrite its value. */
    method Replace(key: AttrKey, value: Option<string>)
      modifies this
      ensures rows == old(rows)[key := value]
    {
      rows := rows[key := value];
    }

    /** PostgreSQL's replace statement, a plain UPDATE: `noData` when no row has the key. */
    method Update(key: AttrKey, value: Option<string>) returns (noData: bool)
      modifies this
      ensures noData <==> key !in old(rows)
      ensures noData ==> rows == old(rows)
      ensures !noData ==> rows == old(rows)[key := value]
    {
      if key !in rows {
        return true;
      }
      rows := rows[key := value];
      return false;
    }

    /** The INSERT statement: a key already present would violate the primary key. */
    method Insert(key: AttrKey, value: Option<string>) returns (r: Result<()>)
      modifies this
      ensures key in old(rows) ==> r.Err? && rows == old(rows)
      ensures key !in old(rows) ==> r.Ok? && rows == old(rows)[key := value]
    {
      if key in rows {
        return Err(Consistency("duplicate key in attr"));
      }
      rows := rows[key := value];
      return Ok(());
    }

    /** The SELECT of `load`: the (type, value) of every row of a context and variable. */
    ghost function Selected(idContext: int, idVar: int): map<int, Option<string>>
      reads this
    {
      SelectedRows(rows, idContext, idVar)
    }
  }

  /** The (type, value) of every row of a context and variable. */
  function SelectedRows(rows: map<AttrKey, Option<string>>, idContext: int, idVar: int): map<int, Option<string>>
  {
    map k | k in rows && k.idContext == idContext && k.idVar == idVar :: k.attrType := rows[k]
  }

  /** A set that is not empty has an element. */
  lemma NonEmpty(s: set<int>)
    requires s != {}
    ensures exists x :: x in s
  {
    if forall x :: x !in s {
      assert false;
    }
  }

  /** The text a fetch into the value buffer reads from a column: a NULL reads as the empty string. */
  function FetchedText(v: Option<string>): string
  {
    if v.None? then "" else v.value
  }

  /**
   * The attributes the fetch loop of `load` makes of the selected rows:
   * each is built from the value buffer, so it holds the fetched text cut
   * at 255 characters, and a NULL column gives an empty string.
   */
  function Attached(selected: map<int, Option<string>>): (a: map<int, Option<string>>)
    ensures a.Keys == selected.Keys
    ensures forall t :: t in a ==> a[t].Some? && |a[t].value| <= MAX_VALUE_LEN && '\0' !in a[t].value
    ensures forall t :: t in a && selected[t].None? ==> a[t] == Some("")
  {
    map t | t in selected :: Some(Truncated(FetchedText(selected[t])))
  }

  /** One more fetched row adds its attribute to those already attached. */
  lemma AttachedStep(selected: map<int, Option<string>>, pending: set<int>, t: int)
    requires t in pending && pending <= selected.Keys
    ensures Attached(selected) - (pending - {t}) ==
      (Attached(selected) - pending)[t := Some(Truncated(FetchedText(selected[t])))]
  {
  }

  /** A text whose first NUL is at `n` has C length `n`. */
  lemma {:induction false} CStrLenAt(s: string, n: nat)
    requires n < |s| && s[n] == '\0'
    requires forall i :: 0 <= i < n ==> s[i] != '\0'
    ensures CStrLen(s) == n
    decreases n
  {
    if n > 0 {
      assert s[0] != '\0';
      CStrLenAt(s[1..], n - 1);
    }
  }

  /** `ODBCAttrV5`: the bound statement parameters and the table they act on. */
  class ODBCAttrV5 {
    const serverType: ServerType
    const table: AttrTable
    var idContext: int
    var idVar: int
    var attrType: int
    const value: array<char>
    var valueInd: int

    ghost predicate Valid()
      reads this
    {
      value.Length == VALUE_SIZE
    }

    /** The value the bound parameters hand to a statement: NULL, or the indicated characters. */
    ghost function Bound(): Option<string>
      reads this, value
      requires Valid()
    {
      if valueInd == SQL_NULL_DATA || !(0 <= valueInd <= MAX_VALUE_LEN) then None
      else Some(value[..valueInd])
    }

    /** The C string in the value buffer, as a fetch leaves it. */
    ghost function Text(): string
      reads this, value
      requires Valid()
    {
      value[..CStrLen(value[..])]
    }

    constructor (serverType: ServerType, table: AttrTable)
      ensures Valid() && fresh(value)
      ensures this.serverType == serverType && this.table == table
      ensures Bound() == None
    {
      this.serverType := serverType;
      this.table := table;
      value := new char[VALUE_SIZE](_ => '\0');
      valueInd := SQL_NULL_DATA;
    }

    /** `set_context`: the first two key columns. */
    method SetContext(idContext: int, idVar: int)
      modifies this
      ensures this.idContext == idContext && this.idVar == idVar
      ensures attrType == old(attrType) && valueInd == old(valueInd)
    {
      this.idContext := idContext;
      this.idVar := idVar;
    }

    /**
     * `set_value`: NULL stores an empty string with the NULL indicator;
     * a string is copied up to its NUL or 255 characters, NUL-terminated,
     * and the indicator is the copied length.
     */
    method SetValue(qvalue: Option<string>)
      requires Valid()
      modifies value, `valueInd
      ensures Valid()
      ensures qvalue.None? ==> valueInd == SQL_NULL_DATA && value[0] == '\0'
      ensures qvalue.Some? ==> valueInd == |Truncated(qvalue.value)| && value[valueInd] == '\0'
      ensures Bound() == if qvalue.None? then None else Some(Truncated(qvalue.value))
    {
      if qvalue.None? {
        value[0] := '\0';
        valueInd := SQL_NULL_DATA;
        return;
      }
      var len := CopyValue(qvalue.value);
      valueInd := len;
    }

    /** The string branch of `set_value`: the C string, cut at 255 characters, copied and NUL-terminated. */
    method CopyValue(s: string) returns (len: nat)
      requires Valid()
      modifies value
      ensures Valid() && len == |Truncated(s)|
      ensures value[..|Truncated(s)|] == Truncated(s) && value[|Truncated(s)|] == '\0'
      ensures Text() == Truncated(s)
    {
      len := CStrLen(s);
      if len > MAX_VALUE_LEN {
        len := MAX_VALUE_LEN;
      }
      // memcpy(value, qvalue, len)
      var i := 0;
      while i < len
        invariant 0 <= i <= len
        invariant value[..i] == s[..i]
        modifies value
      {
        value[i] := s[i];
        i := i + 1;
      }
      value[len] := '\0';
      assert value[..len] == s[..len] == Truncated(s);
      forall k | 0 <= k < len ensures value[..][k] != '\0' {
        assert value[..][k] == Truncated(s)[k];
      }
      CStrLenAt(value[..], len);
    }

    /** `set`: the attribute's code becomes `type` and its value the bound value. */
    method Set(code: int, qvalue: Option<string>)
      requires Valid()
      modifies value, `valueInd, `attrType
      ensures Valid() && attrType == code
      ensures Bound() == if qvalue.None? then None else Some(Truncated(qvalue.value))
    {
      attrType := code;
      SetValue(qvalue);
    }

    /** The key the bound parameters select. */
    function Key(): AttrKey
      reads this
    {
      AttrKey(idContext, idVar, attrType)
    }

    /**
     * `insert`: on every server the row with the bound key ends up holding
     * the bound value, and nothing else in the table changes. PostgreSQL's
     * INSERT runs only after an UPDATE that found no row, so it never meets
     * a duplicate key.
     */
    method Insert()
      requires Valid()
      modifies table
      ensures table.rows == old(table.rows)[Key() := Bound()]
    {
      var v: Option<string> := None;
      if 0 <= valueInd <= MAX_VALUE_LEN {
        v := Some(value[..valueInd]);
      }
      if serverType == Postgres {
        var noData := table.Update(Key(), v);
        if noData {
          var r := table.Insert(Key(), v);
          assert r.Ok?;
        }
      } else {
        table.Replace(Key(), v);
      }
    }

    /**
     * `load`: set the context and the variable code, then attach to the
     * variable, through `seta`, every attribute stored for them.
     */
    method Load(idContext: int, varCode: int, attrs: map<int, Option<string>>) returns (out: map<int, Option<string>>)
      requires Valid()
      modifies `idContext, `idVar, `attrType, value
      ensures Valid() && this.idContext == idContext && idVar == varCode
      ensures out == attrs + Attached(table.Selected(idContext, varCode))
      ensures table.rows == old(table.rows) && valueInd == old(valueInd)
      ensures table.Selected(idContext, varCode) == map[] ==> attrType == old(attrType) && value[..] == old(value[..])
      ensures table.Selected(idContext, varCode) != map[] ==>
        attrType in table.Selected(idContext, varCode) &&
        Text() == Truncated(FetchedText(table.Selected(idContext, varCode)[attrType]))
    {
      this.idContext := idContext;
      idVar := varCode;
      out := FetchSelected(SelectedRows(table.rows, idContext, varCode), attrs);
    }

    /**
     * One `fetch` of the select statement and the `ap_newvar(type, value)`
     * made of it: the row's type and text land in the bound buffers, and the
     * attribute is built from the buffer.
     */
    method FetchRow(t: int, column: Option<string>) returns (attr: Option<string>)
      requires Valid()
      modifies `attrType, value
      ensures Valid() && attrType == t
      ensures Text() == Truncated(FetchedText(column))
      ensures attr == Some(Truncated(FetchedText(column)))
    {
      attrType := t;
      var len := CopyValue(FetchedText(column));
      attr := Some(value[..len]);
    }

    /**
     * The fetch loop of `load`: each selected row, in the order the database
     * returns them, writes its type and value into the bound buffers and is
     * set on the attributes as an attribute built from the buffer. The
     * buffers keep the last row fetched.
     */
    method FetchSelected(selected: map<int, Option<string>>, attrs: map<int, Option<string>>)
      returns (out: map<int, Option<string>>)
      requires Valid()
      modifies `attrType, value
      ensures Valid()
      ensures out == attrs + Attached(selected)
      ensures selected == map[] ==> attrType == old(attrType) && value[..] == old(value[..])
      ensures selected != map[] ==> attrType in selected && Text() == Truncated(FetchedText(selected[attrType]))
    {
      var pending := selected.Keys;
      out := attrs;
      assert Attached(selected) - pending == map[];
      while pending != {}
        invariant Valid() && pending <= selected.Keys
        invariant out == attrs + (Attached(selected) - pending)
        invariant pending == selected.Keys ==> attrType == old(attrType) && value[..] == old(value[..])
        invariant pending != selected.Keys ==> attrType in selected && Text() == Truncated(FetchedText(selected[attrType]))
        decreases pending
      {
        NonEmpty(pending);
        var t :| t in pending;
        AttachedStep(selected, pending, t);
        var attr := FetchRow(t, selected[t]);
        out := out[t := attr];
        pending := pending - {t};
      }
      assert Attached(selected) - pending == Attached(selected);
    }
  }
}
