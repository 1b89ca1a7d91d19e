/**
 * The session behind the Fortran API (`DbAPI` in `dballe/simple/dbapi.cc`).
 *
 * A session holds the permissions it was opened with, the current
 * operation (the query of the last `voglioquesto`, or the insertion of the
 * last `prendilo`), the station cursor of the last `quantesono`, the QC
 * iterator and the open message files. Every call checks its permission,
 * then replaces or drops these fields.
 *
 * The database transaction is not part of this model: each call the session
 * makes on it is appended to the transaction's `log`, and what the
 * transaction answers (the rows of a query, the ids of inserted values, the
 * attributes of a value, the messages of an export) is a parameter of the
 * session method that asks for it.
 */
module DbApi {
  import opened Wrappers
  import opened Defs
  import MsgCursor

  /** The permissions a session can be opened with. */
  datatype Perm = AnaRO | AnaWrite | DataRO | DataWrite | AttrRO | AttrWrite

  /** The input/query record of the session: key names to values. */
  type Rec = map<string, string>

  /** A key naming a variable, `Bxxyyy`, as opposed to a keyword such as `lat` or `rep_memo`. */
  predicate IsVarName(k: string)
  {
    |k| == 6 && k[0] == 'B' && forall i :: 1 <= i < 6 ==> '0' <= k[i] <= '9'
  }

  /** `unsetb`: the record with its variables removed and its keywords kept. */
  function UnsetVars(r: Rec): (u: Rec)
    ensures forall k :: k in u <==> k in r && !IsVarName(k)
    ensures forall k :: k in u ==> u[k] == r[k]
  {
    map k | k in r && !IsVarName(k) :: r[k]
  }

  /** Removing the variables twice is removing them once. */
  lemma UnsetVarsIdempotent(r: Rec)
    ensures UnsetVars(UnsetVars(r)) == UnsetVars(r)
  {
  }

  /** A variable set after `unsetb` is gone after the next one; the keywords stay as they were. */
  lemma UnsetVarsForgetsVar(r: Rec, k: string, v: string)
    requires IsVarName(k)
    ensures UnsetVars(r[k := v]) == UnsetVars(r)
  {
  }

  /** A keyword set on the record survives `unsetb` with its value. */
  lemma UnsetVarsKeepsKeyword(r: Rec, k: string, v: string)
    requires !IsVarName(k)
    ensures UnsetVars(r[k := v]) == UnsetVars(r)[k := v]
  {
  }

  /** A row of a data query: the code `to_record` stores as "var", and the id its attributes refer to. */
  datatype DataRow = DataRow(varcode: int, refId: int)

  /** A database cursor over data rows, `pos` of which have been returned; `stationData` for station values. */
  datatype QueryCursor = QueryCursor(stationData: bool, rows: seq<DataRow>, pos: nat)

  /** A row of a station query. */
  datatype StationRow = StationRow(anaId: int, report: string, ident: Option<string>)

  /** The station cursor of `quantesono`, `pos` rows of which have been returned. */
  datatype StationCursor = StationCursor(rows: seq<StationRow>, pos: nat)

  /** `VarID`: the database id of a value inserted by the last `prendilo`. */
  datatype VarID = VarID(code: int, station: bool, id: int)

  /** What the transaction reports for one inserted value: its code and data id. */
  datatype Inserted = Inserted(code: int, dataId: int)

  /**
   * What the insertion of `prendilo` answers: the station id and the
   * values stored, or the error raised while the values are built from the
   * input record, before the transaction is called, or by the transaction.
   */
  datatype InsertAnswer =
    | Stored(stationId: int, inserted: seq<Inserted>)
    | RecordRejected(error: Error)
    | InsertFailed(error: Error)

  /** The current operation: a `VoglioquestoOperation` or a `PrendiloOperation`. */
  datatype Operation =
    | QueryOp(cur: Option<QueryCursor>, validCachedAttrs: bool)
    | InsertOp(lastInsertedVarids: seq<VarID>, varcode: int)

  /** The output record: cleared, or filled by `to_record` from a data or a station row. */
  datatype OutRecord = Cleared | DataOut(row: DataRow) | StationOut(station: StationRow)

  /** The value attributes refer to: a station value or a data value, by id. */
  datatype AttrRef = AttrRef(station: bool, id: int)

  /** An attribute as the transaction delivers it. */
  datatype Attr = Attr(code: int, value: string)

  /** The import flags of an input file. */
  datatype ImportFlag = FullPseudoana | Attrs | Overwrite

  /**
   * An open input file. Its binary messages are represented already
   * decoded: `pending` holds, for each message still unread, the messages
   * the importer makes of it; `current` holds those of the last one read.
   * An empty name stands for standard input.
   */
  datatype InputFile = InputFile(
    name: string, format: Encoding, simplified: bool,
    pending: seq<seq<MsgCursor.Msg>>, current: seq<MsgCursor.Msg>, idx: nat,
    importFlags: set<ImportFlag>)

  /** One binary message written to an output file: the template asked for and the messages encoded. */
  datatype Written = Written(template: Option<string>, msgs: seq<MsgCursor.Msg>)

  /** An open output file, with what has been written to it. */
  datatype OutputFile = OutputFile(name: string, mode: string, format: Encoding, written: seq<Written>)

  /** A call the session makes on its transaction. */
  datatype Call =
    | RemoveAll
    | QueryStations(query: Rec)
    | QueryData(query: Rec, stationData: bool)
    | InsertData(stationData: bool, canReplace: bool, canAddStation: bool)
    | RemoveData(query: Rec, stationData: bool)
    | AttrQuery(target: AttrRef, force: bool)
    | AttrInsert(target: AttrRef, attrs: map<int, string>)
    | AttrRemove(target: AttrRef, codes: seq<int>)
    | ImportMsg(msg: MsgCursor.Msg, flags: set<ImportFlag>)
    | ExportMsgs(query: Rec)
    | Commit

  /** The database transaction, reduced to the calls made on it. */
  class Transaction {
    var log: seq<Call>

    constructor ()
      ensures log == []
    {
      log := [];
    }

    method Perform(c: Call)
      modifies this
      ensures log == old(log) + [c]
    {
      log := log + [c];
    }
  }

  // ------------------------------------------------------------ prendilo / critica

  /** The first inserted value with the given code. */
  function FirstMatch(varids: seq<VarID>, code: int): (r: Option<VarID>)
    ensures r.Some? ==> r.value in varids && r.value.code == code
    ensures r.None? <==> forall i :: 0 <= i < |varids| ==> varids[i].code != code
    ensures r.Some? ==>
      exists i :: 0 <= i < |varids| && varids[i] == r.value && (forall j :: 0 <= j < i ==> varids[j].code != code)
  {
    if varids == [] then None
    else if varids[0].code == code then Some(varids[0])
    else
      var t := FirstMatch(varids[1..], code);
      assert forall i :: 1 <= i < |varids| ==> varids[i] == varids[1..][i - 1];
      if t.Some? then
        var k :| 0 <= k < |varids[1..]| && varids[1..][k] == t.value &&
                 forall j :: 0 <= j < k ==> varids[1..][j].code != code;
        assert varids[k + 1] == t.value;
        t
      else t
  }

  /**
   * The value `critica` acts on after a `prendilo`: the only inserted value,
   * or else the first one whose code is `*var_related`. A missing
   * `*var_related`, no match, or a match whose id is the missing-value
   * sentinel are consistency errors.
   */
  function CriticaTarget(varids: seq<VarID>, varcode: int): (r: Result<VarID>)
    ensures r.Ok? ==> r.value in varids
    ensures |varids| != 1 && r.Ok? ==> r.value.code == varcode && r.value.id != MISSING_INT
  {
    if |varids| == 1 then Ok(varids[0])
    else if varcode == 0 then Err(Consistency("please set *var_related"))
    else
      match FirstMatch(varids, varcode)
      case None => Err(Consistency("no inserted variable matches *var_related"))
      case Some(v) => if v.id == MISSING_INT then Err(Consistency("no inserted variable matches *var_related")) else Ok(v)
  }

  /** `critica` finds a value exactly in the cases its comment describes, and finds the right one. */
  lemma CriticaTargetCases(varids: seq<VarID>, varcode: int)
    ensures |varids| == 1 ==> CriticaTarget(varids, varcode) == Ok(varids[0])
    ensures |varids| != 1 && varcode == 0 ==> CriticaTarget(varids, varcode).Err?
    ensures |varids| != 1 && varcode != 0 ==>
      (CriticaTarget(varids, varcode).Ok? <==>
        exists i :: 0 <= i < |varids| && varids[i].code == varcode && varids[i].id != MISSING_INT &&
          forall j :: 0 <= j < i ==> varids[j].code != varcode)
    ensures CriticaTarget(varids, varcode).Ok? ==> CriticaTarget(varids, varcode).value in varids
    ensures |varids| != 1 && CriticaTarget(varids, varcode).Ok? ==> CriticaTarget(varids, varcode).value.code == varcode
  {
    if |varids| != 1 && varcode != 0 {
      var m := FirstMatch(varids, varcode);
      if exists i :: 0 <= i < |varids| && varids[i].code == varcode && varids[i].id != MISSING_INT &&
          forall j :: 0 <= j < i ==> varids[j].code != varcode {
        var i :| 0 <= i < |varids| && varids[i].code == varcode && varids[i].id != MISSING_INT &&
          forall j :: 0 <= j < i ==> varids[j].code != varcode;
        var k :| 0 <= k < |varids| && varids[k] == m.value && forall j :: 0 <= j < k ==> varids[j].code != varcode;
        assert !(k < i) && !(i < k);
      }
    }
  }

  /** The lookup loop of `PrendiloOperation::critica`. */
  method FindRelated(varids: seq<VarID>, varcode: int) returns (r: Result<VarID>)
    ensures r == CriticaTarget(varids, varcode)
  {
    if |varids| == 1 {
      return Ok(varids[0]);
    }
    if varcode == 0 {
      return Err(Consistency("please set *var_related"));
    }
    var dataId := MISSING_INT;
    var found := VarID(0, false, MISSING_INT);
    var i := 0;
    while i < |varids|
      invariant 0 <= i <= |varids|
      invariant forall j :: 0 <= j < i ==> varids[j].code != varcode
      invariant dataId == MISSING_INT
    {
      if varids[i].code == varcode {
        dataId := varids[i].id;
        found := varids[i];
        assert FirstMatch(varids, varcode) == Some(varids[i]);
        break;
      }
      i := i + 1;
    }
    if dataId == MISSING_INT {
      return Err(Consistency("no inserted variable matches *var_related"));
    }
    return Ok(found);
  }

  /** The loop of `prendilo` recording, for each inserted value, its code, context and id. */
  method CollectVarids(inserted: seq<Inserted>, station: bool) returns (varids: seq<VarID>)
    ensures |varids| == |inserted|
    ensures forall i :: 0 <= i < |inserted| ==> varids[i] == VarID(inserted[i].code, station, inserted[i].dataId)
  {
    varids := [];
    var i := 0;
    while i < |inserted|
      invariant 0 <= i <= |inserted|
      invariant |varids| == i
      invariant forall j :: 0 <= j < i ==> varids[j] == VarID(inserted[j].code, station, inserted[j].dataId)
    {
      varids := varids + [VarID(inserted[i].code, station, inserted[i].dataId)];
      i := i + 1;
    }
  }

  // ------------------------------------------------------------ voglioancora

  /** The attributes `voglioancora` keeps: all of them for an empty list, else those whose code is listed. */
  function Wanted(attrs: seq<Attr>, codes: seq<int>): (r: seq<Attr>)
    ensures |r| <= |attrs|
    decreases |attrs|
  {
    if attrs == [] then []
    else
      var a := attrs[|attrs| - 1];
      Wanted(attrs[..|attrs| - 1], codes) + (if codes == [] || a.code in codes then [a] else [])
  }

  /** The QC output record after `set` of each attribute in turn: a later one replaces an earlier one with its code. */
  function QcRecord(attrs: seq<Attr>): map<int, string>
    decreases |attrs|
  {
    if attrs == [] then map[]
    else
      var a := attrs[|attrs| - 1];
      QcRecord(attrs[..|attrs| - 1])[a.code := a.value]
  }

  /** A code is in the QC output exactly when a delivered attribute has it and it is wanted. */
  lemma {:induction false} QcRecordMembership(attrs: seq<Attr>, codes: seq<int>, k: int)
    ensures k in QcRecord(Wanted(attrs, codes)) <==> (codes == [] || k in codes) && HasCode(attrs, k)
    decreases |attrs|
  {
    if attrs != [] {
      var init := attrs[..|attrs| - 1];
      var a := attrs[|attrs| - 1];
      QcRecordMembership(init, codes, k);
      HasCodeSnoc(attrs, k);
      var w := Wanted(init, codes);
      if codes == [] || a.code in codes {
        assert Wanted(attrs, codes) == w + [a];
        assert (w + [a])[..|w + [a]| - 1] == w;
      } else {
        assert Wanted(attrs, codes) == w;
      }
    }
  }

  /** Some attribute of `attrs` has code `k`. */
  predicate HasCode(attrs: seq<Attr>, k: int)
  {
    exists i :: 0 <= i < |attrs| && attrs[i].code == k
  }

  /** An attribute with code `k` is among the earlier ones or is the last one. */
  lemma HasCodeSnoc(attrs: seq<Attr>, k: int)
    requires attrs != []
    ensures HasCode(attrs, k) <==> HasCode(attrs[..|attrs| - 1], k) || attrs[|attrs| - 1].code == k
  {
    var init := attrs[..|attrs| - 1];
    if HasCode(init, k) {
      var i :| 0 <= i < |init| && init[i].code == k;
      assert attrs[i] == init[i];
    }
    if HasCode(attrs, k) {
      var i :| 0 <= i < |attrs| && attrs[i].code == k;
      if i < |init| {
        assert init[i] == attrs[i];
      }
    }
  }

  /** The `dest` callback of `voglioancora`, applied to each delivered attribute in turn. */
  method CollectQc(stored: seq<Attr>, codes: seq<int>) returns (out: map<int, string>, count: int)
    ensures out == QcRecord(Wanted(stored, codes))
    ensures count == |Wanted(stored, codes)|
  {
    out := map[];
    count := 0;
    var i := 0;
    while i < |stored|
      invariant 0 <= i <= |stored|
      invariant out == QcRecord(Wanted(stored[..i], codes))
      invariant count == |Wanted(stored[..i], codes)|
    {
      var a := stored[i];
      ghost var w := Wanted(stored[..i], codes);
      WantedStep(stored, i, codes);
      if codes == [] || a.code in codes {
        QcRecordSnoc(w, a);
        out := out[a.code := a.value];
        count := count + 1;
      } else {
        assert Wanted(stored[..i + 1], codes) == w + [] == w;
      }
      i := i + 1;
    }
    assert stored[..i] == stored;
  }

  /** One more delivered attribute is passed on exactly when it is wanted. */
  lemma WantedStep(stored: seq<Attr>, i: nat, codes: seq<int>)
    requires i < |stored|
    ensures Wanted(stored[..i + 1], codes) ==
            Wanted(stored[..i], codes) + (if codes == [] || stored[i].code in codes then [stored[i]] else [])
  {
    assert stored[..i + 1][..i] == stored[..i];
  }

  /** Setting one more attribute overwrites its code in the output record. */
  lemma QcRecordSnoc(w: seq<Attr>, a: Attr)
    ensures QcRecord(w + [a]) == QcRecord(w)[a.code := a.value]
  {
    assert (w + [a])[..|w|] == w;
  }

  // ------------------------------------------------------------ input files

  /** All the messages in a sequence of decoded binary messages, in order. */
  function Flatten(batches: seq<seq<MsgCursor.Msg>>): seq<MsgCursor.Msg>
    decreases |batches|
  {
    if batches == [] then [] else batches[0] + Flatten(batches[1..])
  }

  /** The messages an input file has still to deliver after the current one. */
  function Left(f: InputFile): seq<MsgCursor.Msg>
  {
    (if f.idx + 1 < |f.current| then f.current[f.idx + 1..] else []) + Flatten(f.pending)
  }

  /** `InputFile::next` as written: a binary message the importer makes no message of still answers true. */
  function InputNextAsWritten(f: InputFile): (r: (InputFile, bool))
    ensures (forall i :: 0 <= i < |f.pending| ==> f.pending[i] != []) ==> r == InputNext(f)
    ensures r.1 && r.0.idx >= |r.0.current| ==> f.pending != [] && f.pending[0] == []
  {
    if f.idx + 1 < |f.current| then (f.(idx := f.idx + 1), true)
    else if f.pending == [] then (f, false)
    else (f.(current := f.pending[0], pending := f.pending[1..], idx := 0), true)
  }

  /** After reading a binary message that decodes to nothing, `next` answers true with no message to return. */
  lemma InputNextAsWrittenEmpty(name: string, format: Encoding, flags: set<ImportFlag>)
    ensures var f := InputFile(name, format, false, [[]], [], 0, flags);
            var (g, ok) := InputNextAsWritten(f);
            ok && !(g.idx < |g.current|)
  {
  }

  /** `InputFile::next` as intended: binary messages that decode to nothing are read past. */
  function InputNext(f: InputFile): (r: (InputFile, bool))
    ensures r.1 ==> r.0.idx < |r.0.current|
    ensures r.0.name == f.name && r.0.format == f.format && r.0.importFlags == f.importFlags
    ensures r.0.simplified == f.simplified
    decreases |f.pending|
  {
    if f.idx + 1 < |f.current| then (f.(idx := f.idx + 1), true)
    else if f.pending == [] then (f, false)
    else if f.pending[0] == [] then InputNext(f.(current := [], pending := f.pending[1..], idx := 0))
    else (f.(current := f.pending[0], pending := f.pending[1..], idx := 0), true)
  }

  /**
   * An input file delivers exactly the messages it has left, in order: `next`
   * answers false only when none is left, and otherwise moves to the first
   * of them.
   */
  lemma {:induction false} InputNextDelivers(f: InputFile)
    ensures var (g, ok) := InputNext(f);
            (ok <==> Left(f) != []) &&
            (ok ==> g.current[g.idx] == Left(f)[0] && Left(g) == Left(f)[1..]) &&
            (!ok ==> Left(g) == [])
    decreases |f.pending|
  {
    if f.idx + 1 < |f.current| {
      assert InputNext(f) == (f.(idx := f.idx + 1), true);
      NextInBatch(f);
    } else if f.pending == [] {
      assert Left(f) == [];
    } else if f.pending[0] == [] {
      var h := f.(current := [], pending := f.pending[1..], idx := 0);
      assert InputNext(f) == InputNext(h);
      assert Flatten(f.pending) == Flatten(f.pending[1..]);
      assert Left(f) == Left(h);
      InputNextDelivers(h);
    } else {
      assert InputNext(f) == (f.(current := f.pending[0], pending := f.pending[1..], idx := 0), true);
      NextBatch(f);
    }
  }

  /** Moving on within the current binary message delivers its next message. */
  lemma NextInBatch(f: InputFile)
    requires f.idx + 1 < |f.current|
    ensures Left(f) != [] && Left(f)[0] == f.current[f.idx + 1]
    ensures Left(f.(idx := f.idx + 1)) == Left(f)[1..]
  {
    var g := f.(idx := f.idx + 1);
    var tail := f.current[f.idx + 1..];
    assert tail[0] == f.current[g.idx];
    if g.idx + 1 < |g.current| {
      assert g.current[g.idx + 1..] == tail[1..];
    } else {
      assert tail[1..] == [];
    }
  }

  /** Moving on to the next binary message, when it has messages, delivers its first one. */
  lemma NextBatch(f: InputFile)
    requires !(f.idx + 1 < |f.current|) && f.pending != [] && f.pending[0] != []
    ensures var g := f.(current := f.pending[0], pending := f.pending[1..], idx := 0);
            Left(f) != [] && Left(f)[0] == g.current[0] && Left(g) == Left(f)[1..]
  {
    var g := f.(current := f.pending[0], pending := f.pending[1..], idx := 0);
    assert Left(f) == Flatten(f.pending) == f.pending[0] + Flatten(f.pending[1..]);
    if 1 < |g.current| {
      assert Left(g) == g.current[1..] + Flatten(g.pending);
    } else {
      assert g.current[1..] == [];
    }
  }

  /** The import flags of `messages_open_input`. */
  function ImportFlagsFor(perms: set<Perm>): (r: set<ImportFlag>)
    ensures FullPseudoana in r && r <= {FullPseudoana, Attrs, Overwrite}
  {
    {FullPseudoana}
    + (if AttrWrite in perms then {Attrs} else {})
    + (if DataWrite in perms then {Overwrite} else {})
  }

  /** Station data is always imported in full; attributes and overwriting follow the write permissions. */
  lemma ImportFlagsForPerms(perms: set<Perm>)
    ensures FullPseudoana in ImportFlagsFor(perms)
    ensures Attrs in ImportFlagsFor(perms) <==> AttrWrite in perms
    ensures Overwrite in ImportFlagsFor(perms) <==> DataWrite in perms
    ensures ImportFlagsFor(perms) <= {FullPseudoana, Attrs, Overwrite}
  {
  }

  /** The exported messages, each written as a binary message of its own. */
  function EachWritten(template: Option<string>, msgs: seq<MsgCursor.Msg>): (r: seq<Written>)
    ensures |r| == |msgs|
    ensures forall i :: 0 <= i < |msgs| ==> r[i] == Written(template, [msgs[i]])
    decreases |msgs|
  {
    if msgs == [] then []
    else EachWritten(template, msgs[..|msgs| - 1]) + [Written(template, [msgs[|msgs| - 1]])]
  }

  // ------------------------------------------------------------ the session

  /** The value a query cursor is on: none before the first row is returned or after the last. */
  function CurrentRef(c: QueryCursor): Option<AttrRef>
  {
    if 0 < c.pos <= |c.rows| then Some(AttrRef(c.stationData, c.rows[c.pos - 1].refId)) else None
  }

  /** `DbAPI`: a session on a transaction. */
  class DbAPI {
    const tr: Transaction
    const perms: set<Perm>
    /** `station_context`: whether queries and insertions act on station values. */
    var stationContext: bool
    var input: Rec
    var output: OutRecord
    var qcinput: map<int, string>
    var qcoutput: map<int, string>
    var qcIter: int
    var operation: Option<Operation>
    var anaCur: Option<StationCursor>
    var inputFile: Option<InputFile>
    var outputFile: Option<OutputFile>
    var lastInsertedStationId: int

    constructor (tr: Transaction, perms: set<Perm>)
      ensures this.tr == tr && this.perms == perms
      ensures operation.None? && anaCur.None? && inputFile.None? && outputFile.None?
      ensures input == map[] && output == Cleared && qcinput == map[] && qcoutput == map[]
    {
      this.tr := tr;
      this.perms := perms;
      stationContext := false;
      input := map[];
      output := Cleared;
      qcinput := map[];
      qcoutput := map[];
      qcIter := -1;
      operation := None;
      anaCur := None;
      inputFile := None;
      outputFile := None;
      lastInsertedStationId := MISSING_INT;
    }

    /** `shutdown`: close the files, drop the station cursor, and commit if asked. */
    method Shutdown(commit: bool)
      modifies `inputFile, `outputFile, `anaCur, tr
      ensures inputFile.None? && outputFile.None? && anaCur.None?
      ensures tr.log == old(tr.log) + (if commit then [Commit] else [])
    {
      inputFile := None;
      outputFile := None;
      anaCur := None;
      if commit {
        tr.Perform(Commit);
      }
    }

    /** `fatto`: shut down and commit. */
    method Fatto()
      modifies `inputFile, `outputFile, `anaCur, tr
      ensures inputFile.None? && outputFile.None? && anaCur.None?
      ensures tr.log == old(tr.log) + [Commit]
    {
      Shutdown(true);
    }

    /** `remove_all`: only with data write permission; empties the database and drops the operation. */
    method RemoveAllData() returns (r: Result<()>)
      modifies `operation, tr
      ensures DataWrite !in perms ==> r.Err? && operation == old(operation) && tr.log == old(tr.log)
      ensures DataWrite in perms ==> r.Ok? && operation.None? && tr.log == old(tr.log) + [RemoveAll]
    {
      if DataWrite !in perms {
        return Err(Consistency("remove_all must be run with the database open in data write mode"));
      }
      tr.Perform(RemoveAll);
      operation := None;
      return Ok(());
    }

    /** `scopa`: the same as `remove_all`; the repinfo file name is not used. */
    method Scopa(repinfoFile: string) returns (r: Result<()>)
      modifies `operation, tr
      ensures DataWrite !in perms ==> r.Err? && operation == old(operation) && tr.log == old(tr.log)
      ensures DataWrite in perms ==> r.Ok? && operation.None? && tr.log == old(tr.log) + [RemoveAll]
    {
      r := RemoveAllData();
    }

    /** `quantesono`: a new station query replaces the station cursor and drops the operation. */
    method Quantesono(stations: seq<StationRow>) returns (count: int)
      modifies `anaCur, `operation, tr
      ensures anaCur == Some(StationCursor(stations, 0)) && operation.None?
      ensures tr.log == old(tr.log) + [QueryStations(input)]
      ensures count == |stations|
    {
      tr.Perform(QueryStations(input));
      anaCur := Some(StationCursor(stations, 0));
      operation := None;
      count := |stations|;
    }

    /** `elencamele`: the next station into the output record; at the end the station cursor is dropped. */
    method Elencamele() returns (r: Result<()>)
      modifies `output, `anaCur
      ensures old(anaCur).None? ==> r.Err? && output == old(output) && anaCur.None?
      ensures old(anaCur).Some? ==> r.Ok?
      ensures old(anaCur).Some? && old(anaCur).value.pos < |old(anaCur).value.rows| ==>
        output == StationOut(old(anaCur).value.rows[old(anaCur).value.pos]) &&
        anaCur == Some(old(anaCur).value.(pos := old(anaCur).value.pos + 1))
      ensures old(anaCur).Some? && old(anaCur).value.pos >= |old(anaCur).value.rows| ==>
        output == Cleared && anaCur.None?
    {
      if anaCur.None? {
        return Err(Consistency("elencamele called without a previous quantesono"));
      }
      var c := anaCur.value;
      output := Cleared;
      if c.pos < |c.rows| {
        output := StationOut(c.rows[c.pos]);
        anaCur := Some(c.(pos := c.pos + 1));
      } else {
        anaCur := None;
      }
      return Ok(());
    }

    /** `voglioquesto`: a new data query replaces the operation. */
    method Voglioquesto(rows: seq<DataRow>) returns (count: int)
      modifies `operation, tr
      ensures operation == Some(QueryOp(Some(QueryCursor(stationContext, rows, 0)), false))
      ensures tr.log == old(tr.log) + [QueryData(input, stationContext)]
      ensures count == |rows|
    {
      tr.Perform(QueryData(input, stationContext));
      operation := Some(QueryOp(Some(QueryCursor(stationContext, rows, 0)), false));
      count := |rows|;
    }

    /**
     * `dammelo`: the next row of the query into the output record, answering
     * its variable code; at the end of the rows the cursor is freed and the
     * answer is null. The QC iterator is reset first.
     */
    method Dammelo() returns (r: Result<Option<int>>)
      modifies `operation, `qcIter, `output
      ensures old(operation).None? ==> r.Err? && operation == old(operation) && qcIter == old(qcIter) && output == old(output)
      ensures old(operation).Some? ==> qcIter == -1
      ensures old(operation).Some? && old(operation).value.QueryOp? && old(operation).value.cur.None? ==>
        r == Ok(None) && output == Cleared && operation == old(operation)
      ensures old(operation).Some? && old(operation).value.QueryOp? && old(operation).value.cur.Some? ==>
        var c := old(operation).value.cur.value;
        if c.pos < |c.rows| then
          r == Ok(Some(c.rows[c.pos].varcode)) && output == DataOut(c.rows[c.pos]) &&
          operation == Some(QueryOp(Some(c.(pos := c.pos + 1)), true))
        else
          r == Ok(None) && output == Cleared &&
          operation == Some(QueryOp(None, old(operation).value.validCachedAttrs))
      ensures old(operation).Some? && old(operation).value.InsertOp? ==>
        r.Err? && operation == old(operation) && output == old(output)
    {
      if operation.None? {
        return Err(Consistency("dammelo called without a previous voglioquesto"));
      }
      qcIter := -1;
      match operation.value
      case InsertOp(_, _) =>
        r := Err(Unimplemented("dammelo after prendilo"));
      case QueryOp(cur, valid) =>
        output := Cleared;
        if cur.None? {
          return Ok(None);
        }
        var c := cur.value;
        if c.pos < |c.rows| {
          output := DataOut(c.rows[c.pos]);
          operation := Some(QueryOp(Some(c.(pos := c.pos + 1)), true));
          r := Ok(Some(c.rows[c.pos].varcode));
        } else {
          operation := Some(QueryOp(None, valid));
          r := Ok(None);
        }
    }

    /**
     * `prendilo`: refused on a data read-only session; otherwise a new,
     * empty insertion replaces the operation, the record's values are
     * inserted, their ids remembered for `critica`, the station id kept for
     * `*ana_id`, and the variables of the input record unset; its keywords
     * stay for the next call. When building the values or inserting them
     * fails, the error propagates, leaving the empty insertion, the old
     * station id and the input as they were.
     */
    method Prendilo(answer: InsertAnswer) returns (r: Result<()>)
      modifies `operation, `lastInsertedStationId, `input, tr
      ensures DataRO in perms ==>
        r.Err? && operation == old(operation) && input == old(input) &&
        lastInsertedStationId == old(lastInsertedStationId) && tr.log == old(tr.log)
      ensures DataRO !in perms && answer.Stored? ==>
        r.Ok? && lastInsertedStationId == answer.stationId && input == UnsetVars(old(input)) &&
        tr.log == old(tr.log) + [InsertData(stationContext, DataWrite in perms, AnaWrite in perms)]
      ensures DataRO !in perms && answer.Stored? ==>
        operation.Some? && operation.value.InsertOp? && operation.value.varcode == 0 &&
        |operation.value.lastInsertedVarids| == |answer.inserted| &&
        forall i :: 0 <= i < |answer.inserted| ==>
          operation.value.lastInsertedVarids[i] ==
            VarID(answer.inserted[i].code, stationContext, answer.inserted[i].dataId)
      ensures DataRO !in perms && !answer.Stored? ==>
        r == Err(answer.error) && operation == Some(InsertOp([], 0)) &&
        lastInsertedStationId == old(lastInsertedStationId) && input == old(input) &&
        tr.log == old(tr.log) + (if answer.InsertFailed? then [InsertData(stationContext, DataWrite in perms, AnaWrite in perms)] else [])
    {
      if DataRO in perms {
        return Err(Consistency("idba_prendilo cannot be called with the database open in data readonly mode"));
      }
      operation := Some(InsertOp([], 0));
      if answer.RecordRejected? {
        return Err(answer.error);
      }
      tr.Perform(InsertData(stationContext, DataWrite in perms, AnaWrite in perms));
      if answer.InsertFailed? {
        return Err(answer.error);
      }
      var varids := CollectVarids(answer.inserted, stationContext);
      operation := Some(InsertOp(varids, 0));
      lastInsertedStationId := answer.stationId;
      input := UnsetVars(input);
      return Ok(());
    }

    /** `set_varcode` through `*var_related`: only an insertion keeps it. */
    method SetVarRelated(code: int)
      modifies `operation
      ensures old(operation).Some? && old(operation).value.InsertOp? ==>
        operation == Some(old(operation).value.(varcode := code))
      ensures !(old(operation).Some? && old(operation).value.InsertOp?) ==> operation == old(operation)
    {
      if operation.Some? && operation.value.InsertOp? {
        operation := Some(operation.value.(varcode := code));
      }
    }

    /** `dimenticami`: only with data write permission; removes what the query selects and drops the operation. */
    method Dimenticami() returns (r: Result<()>)
      modifies `operation, tr
      ensures DataWrite !in perms ==> r.Err? && operation == old(operation) && tr.log == old(tr.log)
      ensures DataWrite in perms ==>
        r.Ok? && operation.None? &&
        tr.log == old(tr.log) + [RemoveData(input, stationContext)]
    {
      if DataWrite !in perms {
        return Err(Consistency("dimenticami must be called with the database open in data write mode"));
      }
      tr.Perform(RemoveData(input, stationContext));
      operation := None;
      return Ok(());
    }

    /**
     * `voglioancora`: the attributes of the current value, all or those whose
     * codes are listed, into the QC output, answering how many were set. The
     * QC output is cleared even when the call fails: with no operation, after
     * a `prendilo`, or after the query is exhausted.
     */
    method Voglioancora(codes: seq<int>, stored: seq<Attr>) returns (r: Result<int>)
      modifies `qcoutput, `qcIter, `qcinput, tr
      ensures var op := old(operation);
        !(op.Some? && op.value.QueryOp? && op.value.cur.Some? && CurrentRef(op.value.cur.value).Some?) ==>
        r.Err? && qcoutput == map[] && qcIter == old(qcIter) && qcinput == old(qcinput) && tr.log == old(tr.log)
      ensures var op := old(operation);
        op.Some? && op.value.QueryOp? && op.value.cur.Some? && CurrentRef(op.value.cur.value).Some? ==>
        r == Ok(|Wanted(stored, codes)|) && qcoutput == QcRecord(Wanted(stored, codes)) &&
        qcIter == 0 && qcinput == map[] &&
        tr.log == old(tr.log) + [AttrQuery(CurrentRef(op.value.cur.value).value, !op.value.validCachedAttrs)]
    {
      qcoutput := map[];
      if operation.None? {
        return Err(Consistency("voglioancora was not called after a dammelo"));
      }
      var op := operation.value;
      if op.InsertOp? {
        return Err(Consistency("voglioancora cannot be called after a prendilo"));
      }
      if op.cur.None? {
        return Err(Consistency("voglioancora called after dammelo returned end of data"));
      }
      var target := CurrentRef(op.cur.value);
      if target.None? {
        return Err(Unimplemented("voglioancora before the first dammelo"));
      }
      tr.Perform(AttrQuery(target.value, !op.validCachedAttrs));
      var out, count := CollectQc(stored, codes);
      qcoutput := out;
      qcIter := 0;
      qcinput := map[];
      return Ok(count);
    }

    /**
     * `critica`: refused on an attribute read-only session; otherwise the QC
     * input is stored as attributes of the current value (the current row
     * of the query, or the value the insertion lookup finds) and cleared.
     */
    method Critica() returns (r: Result<()>)
      modifies `operation, `qcinput, tr
      ensures AttrRO in perms || old(operation).None? ==>
        r.Err? && operation == old(operation) && qcinput == old(qcinput) && tr.log == old(tr.log)
      ensures AttrRO !in perms && old(operation).Some? && old(operation).value.QueryOp? ==>
        var op := old(operation).value;
        if op.cur.Some? && CurrentRef(op.cur.value).Some? then
          r.Ok? && operation == Some(op.(validCachedAttrs := false)) && qcinput == map[] &&
          tr.log == old(tr.log) + [AttrInsert(CurrentRef(op.cur.value).value, old(qcinput))]
        else
          r.Err? && operation == old(operation) && qcinput == old(qcinput) && tr.log == old(tr.log)
      ensures AttrRO !in perms && old(operation).Some? && old(operation).value.InsertOp? ==>
        var t := CriticaTarget(old(operation).value.lastInsertedVarids, old(operation).value.varcode);
        operation == old(operation) &&
        if t.Ok? then
          r.Ok? && qcinput == map[] && tr.log == old(tr.log) + [AttrInsert(AttrRef(t.value.station, t.value.id), old(qcinput))]
        else
          r.Err? && qcinput == old(qcinput) && tr.log == old(tr.log)
    {
      if AttrRO in perms {
        return Err(Consistency("critica cannot be called with the database open in attribute readonly mode"));
      }
      if operation.None? {
        return Err(Consistency("critica was not called after a dammelo or prendilo"));
      }
      var op := operation.value;
      match op
      case QueryOp(cur, _) =>
        if cur.None? {
          return Err(Consistency("critica called after dammelo returned end of data"));
        }
        var target := CurrentRef(cur.value);
        if target.None? {
          return Err(Unimplemented("critica before the first dammelo"));
        }
        tr.Perform(AttrInsert(target.value, qcinput));
        operation := Some(op.(validCachedAttrs := false));
        qcinput := map[];
        r := Ok(());
      case InsertOp(varids, varcode) =>
        var t := FindRelated(varids, varcode);
        if t.Err? {
          return Err(t.error);
        }
        tr.Perform(AttrInsert(AttrRef(t.value.station, t.value.id), qcinput));
        qcinput := map[];
        r := Ok(());
    }

    /**
     * `scusa`: only with attribute write permission; removes the listed
     * attributes of the current row of the query. After a `prendilo` it is
     * always refused.
     */
    method Scusa(codes: seq<int>) returns (r: Result<()>)
      modifies `operation, `qcinput, tr
      ensures var op := old(operation);
        AttrWrite in perms && op.Some? && op.value.QueryOp? && op.value.cur.Some? && CurrentRef(op.value.cur.value).Some? ==>
        r.Ok? && operation == Some(op.value.(validCachedAttrs := false)) && qcinput == map[] &&
        tr.log == old(tr.log) + [AttrRemove(CurrentRef(op.value.cur.value).value, codes)]
      ensures var op := old(operation);
        !(AttrWrite in perms && op.Some? && op.value.QueryOp? && op.value.cur.Some? && CurrentRef(op.value.cur.value).Some?) ==>
        r.Err? && operation == old(operation) && qcinput == old(qcinput) && tr.log == old(tr.log)
    {
      if AttrWrite !in perms {
        return Err(Consistency("scusa must be called with the database open in attribute write mode"));
      }
      if operation.None? {
        return Err(Consistency("scusa was not called after a dammelo"));
      }
      var op := operation.value;
      if op.InsertOp? {
        return Err(Consistency("scusa cannot be called after a prendilo"));
      }
      if op.cur.None? {
        return Err(Consistency("scusa called after dammelo returned end of data"));
      }
      var target := CurrentRef(op.cur.value);
      if target.None? {
        return Err(Unimplemented("scusa before the first dammelo"));
      }
      tr.Perform(AttrRemove(target.value, codes));
      operation := Some(op.(validCachedAttrs := false));
      qcinput := map[];
      return Ok(());
    }

    /**
     * `messages_open_input`: the mode must allow reading and the session must
     * be able to write stations and data; a new input file replaces the old.
     */
    method MessagesOpenInput(filename: string, mode: string, format: Encoding, simplified: bool,
                             content: seq<seq<MsgCursor.Msg>>) returns (r: Result<()>)
      modifies `inputFile
      ensures 'r' !in mode || AnaRO in perms || DataRO in perms ==> r.Err? && inputFile == old(inputFile)
      ensures !('r' !in mode || AnaRO in perms || DataRO in perms) ==>
        r.Ok? &&
        inputFile == Some(InputFile(filename, format, simplified, content, [], 0, ImportFlagsFor(perms)))
    {
      if 'r' !in mode {
        return Err(Consistency("input files should be open with 'r' mode"));
      }
      if AnaRO in perms || DataRO in perms {
        return Err(Consistency("messages_open must be called on a session with writable station and data"));
      }
      var flags: set<ImportFlag> := {FullPseudoana};
      if AttrWrite in perms {
        flags := flags + {Attrs};
      }
      if DataWrite in perms {
        flags := flags + {Overwrite};
      }
      assert flags == ImportFlagsFor(perms);
      inputFile := Some(InputFile(filename, format, simplified, content, [], 0, flags));
      return Ok(());
    }

    /** `messages_open_output`: the mode must write or append; a new output file replaces the old. */
    method MessagesOpenOutput(filename: string, mode: string, format: Encoding) returns (r: Result<()>)
      modifies `outputFile
      ensures 'w' !in mode && 'a' !in mode ==> r.Err? && outputFile == old(outputFile)
      ensures 'w' in mode || 'a' in mode ==> r.Ok? && outputFile == Some(OutputFile(filename, mode, format, []))
    {
      if 'w' !in mode && 'a' !in mode {
        return Err(Consistency("output files should be open with 'w' or 'a' mode"));
      }
      outputFile := Some(OutputFile(filename, mode, format, []));
      return Ok(());
    }

    /** `messages_read_next`: move to the next message of the input file and import it. */
    method MessagesReadNext() returns (r: Result<bool>)
      modifies `inputFile, tr
      ensures old(inputFile).None? ==> r.Err? && inputFile.None? && tr.log == old(tr.log)
      ensures old(inputFile).Some? ==>
        var (g, ok) := InputNext(old(inputFile).value);
        r == Ok(ok) && inputFile == Some(g) &&
        tr.log == old(tr.log) + (if ok then [ImportMsg(g.current[g.idx], g.importFlags)] else [])
    {
      if inputFile.None? {
        return Err(Consistency("messages_read_next called but there are no open input files"));
      }
      var f := inputFile.value;
      var (g, ok) := InputNext(f);
      inputFile := Some(g);
      if !ok {
        return Ok(false);
      }
      tr.Perform(ImportMsg(g.current[g.idx], g.importFlags));
      return Ok(true);
    }

    /** `messages_write_next`: export what the query selects, one binary message per exported message. */
    method MessagesWriteNext(template: Option<string>, exported: seq<MsgCursor.Msg>) returns (r: Result<()>)
      modifies `outputFile, tr
      ensures old(outputFile).None? ==> r.Err? && outputFile.None? && tr.log == old(tr.log)
      ensures old(outputFile).Some? ==>
        r.Ok? && tr.log == old(tr.log) + [ExportMsgs(input)] &&
        outputFile == Some(old(outputFile).value.(written := old(outputFile).value.written + EachWritten(template, exported)))
    {
      if outputFile.None? {
        return Err(Consistency("messages_write_next called but there are no open output files"));
      }
      tr.Perform(ExportMsgs(input));
      var out := outputFile.value;
      var written := out.written;
      var i := 0;
      while i < |exported|
        invariant 0 <= i <= |exported|
        invariant written == out.written + EachWritten(template, exported[..i])
      {
        assert exported[..i + 1][..i] == exported[..i];
        written := written + [Written(template, [exported[i]])];
        i := i + 1;
      }
      assert exported[..i] == exported;
      outputFile := Some(out.(written := written));
      return Ok(());
    }
  }
}
