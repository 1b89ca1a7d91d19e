/**
 * BUFR and CREX import and export through wreport bulletins
 * (`dballe/msg/wr_codec.cc`).
 *
 * Import picks an importer from the bulletin's type and local subtype and
 * makes one message per subset. Export picks a template by name, looks its
 * factory up in the template registry, and lets the template fill the
 * bulletin: first the header (`setupBulletin`), then one subset per message.
 *
 * The bulletin's binary encoding and decoding, the per-type importers and
 * the contents of each subset belong to wreport and to the importers and
 * templates, and are not part of this model: a decoded subset is an opaque
 * sequence of codes, and an encoded subset records which template encoded
 * which message.
 */
module WrCodec {
  import opened Wrappers
  import opened Defs

  /** The types of message. */
  datatype MsgType = Generic | Synop | Pilot | Temp | TempShip | Airep | Amdar | Acars | Ship | Buoy | Metar | Sat | Pollution

  /** `WR_VAR(f, x, y)`: a descriptor code, F in bits 14-15, X in bits 8-13, Y in bits 0-7. */
  function WrVar(f: int, x: int, y: int): int
  {
    f * 0x4000 + x * 0x100 + y
  }

  /** A variable of a message context, with its integer value if it has one. */
  datatype Var = Var(code: int, value: Option<int>)

  /** A context of a message: a level, a time range and its variables. */
  datatype Context = Context(level: Level, trange: Trange, vars: seq<Var>)

  /** What `get_year_var` ... `get_second_var` find in a message. */
  datatype DateVars = DateVars(
    year: Option<int>, month: Option<int>, day: Option<int>,
    hour: Option<int>, minute: Option<int>, second: Option<int>)

  /** A message: its type, its date and time variables and its contexts. */
  datatype Msg = Msg(msgType: MsgType, date: DateVars, contexts: seq<Context>)

  /** The first context of a message with the given level and time range. */
  function FindContext(contexts: seq<Context>, level: Level, trange: Trange): (r: Option<Context>)
    ensures r.Some? ==> r.value in contexts && r.value.level == level && r.value.trange == trange
    ensures r.None? ==> forall i :: 0 <= i < |contexts| ==> !(contexts[i].level == level && contexts[i].trange == trange)
    decreases |contexts|
  {
    if contexts == [] then None
    else if contexts[0].level == level && contexts[0].trange == trange then Some(contexts[0])
    else
      var r := FindContext(contexts[1..], level, trange);
      assert forall i :: 1 <= i < |contexts| ==> contexts[i] == contexts[1..][i - 1];
      r
  }

  /** The first variable with the given code. */
  function FindVar(vars: seq<Var>, code: int): (r: Option<Var>)
    ensures r.Some? ==> r.value in vars && r.value.code == code
    ensures r.None? ==> forall i :: 0 <= i < |vars| ==> vars[i].code != code
    decreases |vars|
  {
    if vars == [] then None
    else if vars[0].code == code then Some(vars[0])
    else
      var r := FindVar(vars[1..], code);
      assert forall i :: 1 <= i < |vars| ==> vars[i] == vars[1..][i - 1];
      r
  }

  /** `Msg::find`: the variable with a code in the context with a level and time range. */
  function Find(m: Msg, code: int, level: Level, trange: Trange): Option<Var>
  {
    match FindContext(m.contexts, level, trange)
    case None => None
    case Some(c) => FindVar(c.vars, code)
  }

  // ------------------------------------------------------------ import

  /** The importers a bulletin can be given to. */
  datatype ImporterKind =
    | MetarImporter | SynopImporter | PilotImporter | TempImporter
    | SatImporter | FlightImporter | PollutionImporter | GenericImporter

  /** A decoded bulletin: its type, its local subtype and its subsets. */
  datatype InBulletin = InBulletin(btype: int, localsubtype: int, subsets: seq<seq<int>>)

  /** The importer `from_bulletin` chooses from the bulletin type and local subtype. */
  function ChooseImporter(btype: int, localsubtype: int): (k: ImporterKind)
    ensures k == MetarImporter <==> (btype == 0 || btype == 1) && localsubtype == 140
    ensures k == SynopImporter <==> (btype == 0 || btype == 1) && localsubtype != 140
    ensures k == PilotImporter <==> btype == 2 && (localsubtype == 91 || localsubtype == 92)
    ensures k == TempImporter <==> btype == 2 && localsubtype != 91 && localsubtype != 92
    ensures k == SatImporter <==> btype == 3
    ensures k == FlightImporter <==> btype == 4
    ensures k == PollutionImporter <==> btype == 8
    ensures k == GenericImporter <==> btype !in {0, 1, 2, 3, 4, 8}
  {
    if btype == 0 || btype == 1 then
      (if localsubtype == 140 then MetarImporter else SynopImporter)
    else if btype == 2 then
      (if localsubtype == 91 || localsubtype == 92 then PilotImporter else TempImporter)
    else if btype == 3 then SatImporter
    else if btype == 4 then FlightImporter
    else if btype == 8 then PollutionImporter
    else GenericImporter
  }

  /** A message made by an importer from one subset. */
  datatype Imported = Imported(msgType: MsgType, importer: ImporterKind, subset: seq<int>)

  /**
   * `from_bulletin`: one message per subset, in subset order, appended to
   * `msgs`; each has the type the chosen importer scans the whole bulletin
   * for. The importers' `scanType` is not part of this model and is given.
   */
  method FromBulletin(b: InBulletin, scanType: (ImporterKind, InBulletin) -> MsgType, msgs: seq<Imported>)
    returns (out: seq<Imported>)
    ensures |out| == |msgs| + |b.subsets|
    ensures out[..|msgs|] == msgs
    ensures forall i :: 0 <= i < |b.subsets| ==>
      out[|msgs| + i] == Imported(scanType(ChooseImporter(b.btype, b.localsubtype), b), ChooseImporter(b.btype, b.localsubtype), b.subsets[i])
  {
    var importer := ChooseImporter(b.btype, b.localsubtype);
    var t := scanType(importer, b);
    out := msgs;
    var i := 0;
    while i < |b.subsets|
      invariant 0 <= i <= |b.subsets|
      invariant |out| == |msgs| + i
      invariant out[..|msgs|] == msgs
      invariant forall j :: 0 <= j < i ==> out[|msgs| + j] == Imported(t, importer, b.subsets[j])
    {
      out := out + [Imported(t, importer, b.subsets[i])];
      i := i + 1;
    }
  }

  // ------------------------------------------------------------ template registry

  /** A template factory, known by its name. */
  datatype TemplateFactory = TemplateFactory(name: string, description: string)

  /** `TemplateRegistry`: template factories by name. */
  class TemplateRegistry {
    var factories: map<string, TemplateFactory>

    constructor ()
      ensures factories == map[]
    {
      factories := map[];
    }

    /** `register_factory`: a `std::map` insert, which keeps a factory already registered under the name. */
    method RegisterFactory(fac: TemplateFactory)
      modifies this
      ensures fac.name in old(factories) ==> factories == old(factories)
      ensures fac.name !in old(factories) ==> factories == old(factories)[fac.name := fac]
    {
      if fac.name !in factories {
        factories := factories[fac.name := fac];
      }
    }

    /**
     * `register_factory` on each of `facs` in turn: every name ends up
     * registered, a name already taken keeps its factory, and a new name
     * holds one of `facs`.
     */
    method RegisterAll(facs: seq<TemplateFactory>)
      modifies this
      ensures forall f :: f in facs ==> f.name in factories
      ensures forall n :: n in old(factories) ==> n in factories && factories[n] == old(factories)[n]
      ensures forall n :: n in factories && n !in old(factories) ==>
        exists f :: f in facs && f.name == n && factories[n] == f
    {
      var i := 0;
      while i < |facs|
        invariant 0 <= i <= |facs|
        invariant forall j :: 0 <= j < i ==> facs[j].name in factories
        invariant forall n :: n in old(factories) ==> n in factories && factories[n] == old(factories)[n]
        invariant forall n :: n in factories && n !in old(factories) ==>
          exists f :: f in facs && f.name == n && factories[n] == f
      {
        RegisterFactory(facs[i]);
        i := i + 1;
      }
    }

    /** `get(name)`: the factory registered under the name, or a not-found error. */
    method Get(name: string) returns (r: Result<TemplateFactory>)
      ensures name in factories <==> r.Ok?
      ensures r.Ok? ==> r.value == factories[name]
      ensures r.Err? ==> r.error.NotFound?
    {
      if name !in factories {
        return Err(NotFound("requested export template does not exist"));
      }
      return Ok(factories[name]);
    }
  }

  // ------------------------------------------------------------ export

  /** The exporter options the templates read. */
  datatype ExporterOptions = ExporterOptions(templateName: string, centre: int, subcentre: int)

  /** The template name `to_bulletin` starts from: the option, else one derived from the first message's type. */
  function TemplateName(opts: ExporterOptions, first: MsgType, typeName: MsgType -> string): (tpl: string)
    ensures opts.templateName != "" ==> tpl == opts.templateName
    ensures opts.templateName == "" && first == TempShip ==> tpl == "temp-ship"
    ensures opts.templateName == "" && first != TempShip ==> tpl == typeName(first)
  {
    if opts.templateName != "" then opts.templateName
    else if first == TempShip then "temp-ship"
    else typeName(first)
  }

  /** The current UTC time as `gmtime_r` breaks it down. */
  datatype Tm = Tm(tmYear: int, tmMon: int, tmMday: int, tmHour: int, tmMin: int, tmSec: int)

  /** A bulletin's reference time. */
  datatype Stamp = Stamp(year: int, month: int, day: int, hour: int, minute: int, second: int)

  /**
   * The reference time `setupBulletin` takes from a message: its date and
   * time, with a missing hour, minute or second taken as 0; when any part
   * of the date is missing, the whole of it is the current time instead.
   */
  function ReferenceTime(d: DateVars, now: Tm): (r: Stamp)
    ensures d.year.Some? && d.month.Some? && d.day.Some? ==>
      r.year == d.year.value && r.month == d.month.value && r.day == d.day.value &&
      r.hour == d.hour.GetOr(0) && r.minute == d.minute.GetOr(0) && r.second == d.second.GetOr(0)
    ensures !(d.year.Some? && d.month.Some? && d.day.Some?) ==>
      r == Stamp(now.tmYear + 1900, now.tmMon + 1, now.tmMday, now.tmHour, now.tmMin, now.tmSec)
  {
    if d.year.Some? && d.month.Some? && d.day.Some? then
      Stamp(d.year.value, d.month.value, d.day.value, d.hour.GetOr(0), d.minute.GetOr(0), d.second.GetOr(0))
    else
      Stamp(now.tmYear + 1900, now.tmMon + 1, now.tmMday, now.tmHour, now.tmMin, now.tmSec)
  }

  /** What a template made of one message in one subset. */
  datatype Encoded = Encoded(template: string, msg: Msg)

  /** The header fields a template chooses: category, subcategory, local subcategory and data descriptors. */
  datatype Header = Header(bulletinType: int, subtype: int, localsubtype: int, datadesc: seq<int>)

  /** A bulletin being filled by an exporter. */
  /** The originating centre, table and edition fields of a bulletin's header. */
  datatype HeaderCodes = HeaderCodes(
    centre: int, subcentre: int, masterTable: int, localTable: int, table: int,
    compression: int, updateSequenceNumber: int, hasCheckDigit: bool, edition: int)

  /**
   * The header `setupBulletin` leaves, from the header `h0` the bulletin
   * had: for BUFR the options' centre and subcentre, 255 when unset, master
   * table 14, local table 0, no compression, update sequence 0 and edition
   * 4; for CREX master table 0, table 3, no check digit and edition 2; the
   * other fields, and every field of an AOF bulletin, are kept.
   */
  predicate CommonHeader(enc: Encoding, opts: ExporterOptions, h0: HeaderCodes, h: HeaderCodes)
  {
    match enc
    case BUFR =>
      h == h0.(centre := if opts.centre != MISSING_INT then opts.centre else 255,
               subcentre := if opts.subcentre != MISSING_INT then opts.subcentre else 255,
               masterTable := 14, localTable := 0, compression := 0, updateSequenceNumber := 0, edition := 4)
    case CREX =>
      h == h0.(masterTable := 0, table := 3, hasCheckDigit := false, edition := 2)
    case AOF =>
      h == h0
  }

  class OutBulletin {
    const encoding: Encoding
    var repYear: int
    var repMonth: int
    var repDay: int
    var repHour: int
    var repMinute: int
    var repSecond: int
    var centre: int
    var subcentre: int
    var masterTable: int
    var localTable: int
    var table: int
    var compression: int
    var updateSequenceNumber: int
    var hasCheckDigit: bool
    var edition: int
    /** The bulletin's data category, subcategory and local subcategory. */
    var bulletinType: int
    var subtype: int
    var localsubtype: int
    /** The data descriptor section. */
    var datadesc: seq<int>
    var subsets: seq<seq<Encoded>>

    /** A new, empty bulletin of the given encoding. */
    constructor (encoding: Encoding)
      ensures this.encoding == encoding && subsets == []
    {
      this.encoding := encoding;
      repYear, repMonth, repDay, repHour, repMinute, repSecond := 0, 0, 0, 0, 0, 0;
      centre, subcentre, masterTable, localTable, table := 0, 0, 0, 0, 0;
      compression, updateSequenceNumber, hasCheckDigit, edition := 0, 0, false, 0;
      bulletinType, subtype, localsubtype, datadesc := 0, 0, 0, [];
      subsets := [];
    }

    /** The bulletin's reference time. */
    function Reference(): Stamp
      reads this
    {
      Stamp(repYear, repMonth, repDay, repHour, repMinute, repSecond)
    }

    method SetReference(t: Stamp)
      modifies `repYear, `repMonth, `repDay, `repHour, `repMinute, `repSecond
      ensures Reference() == t
    {
      repYear, repMonth, repDay := t.year, t.month, t.day;
      repHour, repMinute, repSecond := t.hour, t.minute, t.second;
    }

    /** The header fields of a BUFR bulletin. */
    method SetBufrHeader(centre: int, subcentre: int)
      modifies `centre, `subcentre, `masterTable, `localTable, `compression, `updateSequenceNumber, `edition
      ensures this.centre == centre && this.subcentre == subcentre
      ensures masterTable == 14 && localTable == 0 && compression == 0 && updateSequenceNumber == 0 && edition == 4
    {
      this.centre, this.subcentre := centre, subcentre;
      masterTable, localTable, compression, updateSequenceNumber, edition := 14, 0, 0, 0, 4;
    }

    /** The section fields `setupBulletin` writes. */
    function Codes(): HeaderCodes
      reads this
    {
      HeaderCodes(centre, subcentre, masterTable, localTable, table, compression,
                  updateSequenceNumber, hasCheckDigit, edition)
    }

    /** The header fields a template chooses. */
    function Chosen(): Header
      reads this
    {
      Header(bulletinType, subtype, localsubtype, datadesc)
    }

    method SetChosen(h: Header)
      modifies `bulletinType, `subtype, `localsubtype, `datadesc
      ensures Chosen() == h
    {
      bulletinType, subtype, localsubtype, datadesc := h.bulletinType, h.subtype, h.localsubtype, h.datadesc;
    }

    /** The master table number, which a template may override. */
    method SetMasterTable(v: int)
      modifies `masterTable
      ensures masterTable == v
    {
      masterTable := v;
    }

    /** The header fields of a CREX bulletin. */
    method SetCrexHeader()
      modifies `masterTable, `table, `hasCheckDigit, `edition
      ensures masterTable == 0 && table == 3 && !hasCheckDigit && edition == 2
    {
      masterTable, table, hasCheckDigit, edition := 0, 3, false, 2;
    }

    /** `obtain_subset(i)` followed by the template's `to_subset`: subset `i` exists afterwards and gets `e`. */
    method AddToSubset(i: nat, e: Encoded)
      modifies `subsets
      ensures |subsets| == if i < |old(subsets)| then |old(subsets)| else i + 1
      ensures subsets[i] == (if i < |old(subsets)| then old(subsets)[i] else []) + [e]
      ensures forall j :: 0 <= j < |subsets| && j != i ==>
        subsets[j] == if j < |old(subsets)| then old(subsets)[j] else []
    {
      while |subsets| <= i
        invariant |old(subsets)| <= |subsets| <= if i < |old(subsets)| then |old(subsets)| else i + 1
        invariant forall j :: 0 <= j < |subsets| ==> subsets[j] == if j < |old(subsets)| then old(subsets)[j] else []
        decreases i + 1 - |subsets|
      {
        subsets := subsets + [[]];
      }
      subsets := subsets[i := subsets[i] + [e]];
    }
  }

  /** A template made by a factory for a set of messages. */
  class Template {
    const name: string
    const opts: ExporterOptions
    const msgs: seq<Msg>

    constructor (name: string, opts: ExporterOptions, msgs: seq<Msg>)
      ensures this.name == name && this.opts == opts && this.msgs == msgs
    {
      this.name := name;
      this.opts := opts;
      this.msgs := msgs;
    }

    /**
     * `setupBulletin`: the reference time of the first message, and the
     * header constants of the encoding; a BUFR centre or subcentre not set
     * in the options is 255.
     */
    method SetupBulletin(b: OutBulletin, now: Tm)
      requires |msgs| > 0
      modifies b
      ensures b.Reference() == ReferenceTime(msgs[0].date, now)
      ensures b.encoding == BUFR ==>
        b.centre == (if opts.centre != MISSING_INT then opts.centre else 255) &&
        b.subcentre == (if opts.subcentre != MISSING_INT then opts.subcentre else 255) &&
        b.masterTable == 14 && b.localTable == 0 && b.compression == 0 &&
        b.updateSequenceNumber == 0 && b.edition == 4 &&
        b.table == old(b.table) && b.hasCheckDigit == old(b.hasCheckDigit)
      ensures b.encoding == CREX ==>
        b.masterTable == 0 && b.table == 3 && !b.hasCheckDigit && b.edition == 2 &&
        b.centre == old(b.centre) && b.subcentre == old(b.subcentre) && b.localTable == old(b.localTable) &&
        b.compression == old(b.compression) && b.updateSequenceNumber == old(b.updateSequenceNumber)
      ensures b.encoding == AOF ==>
        b.centre == old(b.centre) && b.subcentre == old(b.subcentre) && b.masterTable == old(b.masterTable) &&
        b.localTable == old(b.localTable) && b.table == old(b.table) && b.compression == old(b.compression) &&
        b.updateSequenceNumber == old(b.updateSequenceNumber) && b.hasCheckDigit == old(b.hasCheckDigit) &&
        b.edition == old(b.edition)
      ensures CommonHeader(b.encoding, opts, old(b.Codes()), b.Codes())
      ensures b.subsets == old(b.subsets)
      ensures b.Chosen() == old(b.Chosen())
    {
      b.SetReference(ReferenceTime(msgs[0].date, now));
      if b.encoding == BUFR {
        b.SetBufrHeader(if opts.centre != MISSING_INT then opts.centre else 255,
                        if opts.subcentre != MISSING_INT then opts.subcentre else 255);
      }
      if b.encoding == CREX {
        b.SetCrexHeader();
      }
    }

    /** `Template::to_bulletin`: the header once, then message `i` into subset `i`, in order. */
    method ToBulletin(b: OutBulletin, now: Tm)
      requires |msgs| > 0
      modifies b
      ensures b.Reference() == ReferenceTime(msgs[0].date, now)
      ensures |b.subsets| == if |msgs| <= |old(b.subsets)| then |old(b.subsets)| else |msgs|
      ensures forall i :: 0 <= i < |msgs| ==>
        b.subsets[i] == (if i < |old(b.subsets)| then old(b.subsets)[i] else []) + [Encoded(name, msgs[i])]
      ensures forall i :: |msgs| <= i < |old(b.subsets)| ==> b.subsets[i] == old(b.subsets)[i]
      ensures CommonHeader(b.encoding, opts, old(b.Codes()), b.Codes())
      ensures b.Chosen() == old(b.Chosen())
    {
      SetupBulletin(b, now);
      ghost var before := b.subsets;
      ghost var codes, chosen := b.Codes(), b.Chosen();
      var i := 0;
      while i < |msgs|
        invariant 0 <= i <= |msgs|
        invariant b.Reference() == ReferenceTime(msgs[0].date, now)
        invariant |b.subsets| == if i <= |before| then |before| else i
        invariant forall j :: 0 <= j < i ==>
          b.subsets[j] == (if j < |before| then before[j] else []) + [Encoded(name, msgs[j])]
        invariant forall j :: i <= j < |b.subsets| ==> b.subsets[j] == before[j]
        invariant b.Codes() == codes && b.Chosen() == chosen
      {
        b.AddToSubset(i, Encoded(name, msgs[i]));
        i := i + 1;
      }
    }
  }

  /**
   * `WRExporter::to_bulletin`: an empty message set is a consistency error;
   * otherwise the template named by the options or by the first message's
   * type is looked up, and a template for all the messages fills the bulletin.
   * `msg_type_name` is not part of this model and is given as `typeName`.
   */
  method ExportToBulletin(msgs: seq<Msg>, opts: ExporterOptions, typeName: MsgType -> string,
                          registry: TemplateRegistry, b: OutBulletin, now: Tm) returns (r: Result<string>)
    modifies b
    ensures msgs == [] ==> r.Err? && r.error.Consistency?
    ensures msgs != [] && TemplateName(opts, msgs[0].msgType, typeName) !in registry.factories ==>
      r.Err? && r.error.NotFound?
    ensures r.Err? ==>
      b.subsets == old(b.subsets) && b.Reference() == old(b.Reference()) &&
      b.Codes() == old(b.Codes()) && b.Chosen() == old(b.Chosen())
    ensures r.Ok? ==>
      msgs != [] && TemplateName(opts, msgs[0].msgType, typeName) in registry.factories &&
      r.value == registry.factories[TemplateName(opts, msgs[0].msgType, typeName)].name &&
      b.Reference() == ReferenceTime(msgs[0].date, now) &&
      CommonHeader(b.encoding, opts, old(b.Codes()), b.Codes()) && b.Chosen() == old(b.Chosen()) &&
      |b.subsets| == (if |msgs| <= |old(b.subsets)| then |old(b.subsets)| else |msgs|) &&
      forall i :: 0 <= i < |msgs| ==>
        b.subsets[i] == (if i < |old(b.subsets)| then old(b.subsets)[i] else []) + [Encoded(r.value, msgs[i])]
    ensures msgs != [] && TemplateName(opts, msgs[0].msgType, typeName) in registry.factories ==> r.Ok?
  {
    if msgs == [] {
      return Err(Consistency("trying to export an empty message set"));
    }
    var tpl := opts.templateName;
    if tpl == "" {
      tpl := if msgs[0].msgType == TempShip then "temp-ship" else typeName(msgs[0].msgType);
    }
    var fac := registry.Get(tpl);
    if fac.Err? {
      return Err(fac.error);
    }
    var encoder := new Template(fac.value.name, opts, msgs);
    encoder.ToBulletin(b, now);
    return Ok(fac.value.name);
  }
}
