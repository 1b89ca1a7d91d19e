/**
 * The SYNOP export templates (`dballe/msg/wr_exporters/synop.cc`): the
 * decisions they take about a bulletin and its subsets.
 *
 * `SynopWMO` starts the bulletin with subcategory 255 and lowers it subset
 * by subset from the hour of each message; the ECMWF templates choose one
 * precipitation descriptor for the whole bulletin; every template scans the
 * contexts of a message for the sunshine and evaporation periods; the
 * factories choose a template from the first message.
 *
 * The values the templates store in each subset, through
 * `CommonSynopExporter`, are not part of this model. Neither are the
 * message accessors (`get_hour`, `get_tot_prec*_var`, `get_st_name_var`,
 * `get_st_type_var`): their answers are parameters.
 */
module SynopExport {
  import opened Wrappers
  import opened Defs
  import opened WrCodec

  // ------------------------------------------------------------ subcategory by hour

  /** The subcategory an hour asks for: 2 at main synoptic hours, 1 at intermediate ones, 0 otherwise. */
  function HourSubtype(hour: int): int
  {
    // `%` only ever compares with 0 here, where C's truncating remainder and
    // Dafny's Euclidean one agree.
    if hour % 6 == 0 then 2 else if hour % 3 == 0 then 1 else 0
  }

  /** The update `SynopWMO::to_subset` makes to the bulletin subcategory for a message at `hour`. */
  function NextSubtype(subtype: int, hour: int): int
  {
    if hour % 6 == 0 then (if subtype == 255 then 2 else subtype)
    else if hour % 3 == 0 then (if subtype != 0 then 1 else subtype)
    else 0
  }

  /** The subcategory after the subsets for `hours`, starting from the 255 of `setupBulletin`. */
  function SubtypeAfter(hours: seq<int>): int
    decreases |hours|
  {
    if hours == [] then 255 else NextSubtype(SubtypeAfter(hours[..|hours| - 1]), hours[|hours| - 1])
  }

  /** The lowest subcategory asked for by any of the hours. */
  function LowestSubtype(hours: seq<int>): (r: int)
    requires hours != []
    ensures forall i :: 0 <= i < |hours| ==> r <= HourSubtype(hours[i])
    ensures exists i :: 0 <= i < |hours| && r == HourSubtype(hours[i])
    decreases |hours|
  {
    var last := HourSubtype(hours[|hours| - 1]);
    if |hours| == 1 then last
    else
      var init := hours[..|hours| - 1];
      var m := LowestSubtype(init);
      assert forall i :: 0 <= i < |init| ==> hours[i] == init[i];
      if m <= last then m else last
  }

  /** With heterogeneous subsets, the bulletin keeps the lowest of the subcategories their hours ask for. */
  lemma {:induction false} SubtypeKeepsLowest(hours: seq<int>)
    ensures hours == [] ==> SubtypeAfter(hours) == 255
    ensures hours != [] ==> SubtypeAfter(hours) == LowestSubtype(hours)
    decreases |hours|
  {
    if |hours| > 1 {
      SubtypeKeepsLowest(hours[..|hours| - 1]);
    }
  }

  // ------------------------------------------------------------ scan_levels

  /** A context that holds a sunshine duration: surface level, accumulation, with B14031. */
  predicate IsSunshine(c: Context)
  {
    c.level.ltype1 == 1 && c.trange.pind == 1 && FindVar(c.vars, WrVar(0, 14, 31)).Some?
  }

  /** A context that holds an evaporation: surface level, accumulation, with B13033. */
  predicate IsEvapo(c: Context)
  {
    c.level.ltype1 == 1 && c.trange.pind == 1 && FindVar(c.vars, WrVar(0, 13, 33)).Some?
  }

  /** The sunshine contexts, in order. */
  function Sunshines(cs: seq<Context>): seq<Context>
    decreases |cs|
  {
    if cs == [] then []
    else Sunshines(cs[..|cs| - 1]) + (if IsSunshine(cs[|cs| - 1]) then [cs[|cs| - 1]] else [])
  }

  /** The evaporation contexts, in order. */
  function Evapos(cs: seq<Context>): seq<Context>
    decreases |cs|
  {
    if cs == [] then []
    else Evapos(cs[..|cs| - 1]) + (if IsEvapo(cs[|cs| - 1]) then [cs[|cs| - 1]] else [])
  }

  /** The element at `i`, if there is one. */
  function Nth(s: seq<Context>, i: nat): Option<Context>
  {
    if i < |s| then Some(s[i]) else None
  }

  /** The last element, if there is one. */
  function Last(s: seq<Context>): Option<Context>
  {
    if s == [] then None else Some(s[|s| - 1])
  }

  /**
   * One more context of the scan: a sunshine context fills the first empty
   * one of the two sunshine slots, an evaporation context replaces the last
   * one seen.
   */
  lemma ScanAdvance(cs: seq<Context>, i: int, s1: Option<Context>, s2: Option<Context>, ev: Option<Context>)
    requires 0 <= i < |cs|
    requires s1 == Nth(Sunshines(cs[..i]), 0) && s2 == Nth(Sunshines(cs[..i]), 1)
    requires ev == Last(Evapos(cs[..i]))
    ensures Nth(Sunshines(cs[..i + 1]), 0) == (if IsSunshine(cs[i]) && s1.None? then Some(cs[i]) else s1)
    ensures Nth(Sunshines(cs[..i + 1]), 1) == (if IsSunshine(cs[i]) && s1.Some? && s2.None? then Some(cs[i]) else s2)
    ensures Last(Evapos(cs[..i + 1])) == (if IsEvapo(cs[i]) then Some(cs[i]) else ev)
  {
    var c := cs[i];
    assert cs[..i + 1][..i] == cs[..i];
    assert cs[..i + 1][i] == c;
    assert Sunshines(cs[..i + 1]) == Sunshines(cs[..i]) + (if IsSunshine(c) then [c] else []);
    assert Evapos(cs[..i + 1]) == Evapos(cs[..i]) + (if IsEvapo(c) then [c] else []);
  }

  /** The state `Synop` keeps about the message being encoded. */
  class Synop {
    var sunshine1: Option<Context>
    var sunshine2: Option<Context>
    var evapo: Option<Context>

    constructor ()
      ensures sunshine1.None? && sunshine2.None? && evapo.None?
    {
      sunshine1, sunshine2, evapo := None, None, None;
    }

    /**
     * `scan_levels`: the first two sunshine contexts of the message, and its
     * last evaporation context.
     */
    method ScanLevels(m: Msg)
      modifies this
      ensures sunshine1 == Nth(Sunshines(m.contexts), 0)
      ensures sunshine2 == Nth(Sunshines(m.contexts), 1)
      ensures evapo == Last(Evapos(m.contexts))
    {
      var cs := m.contexts;
      var s1: Option<Context> := None;
      var s2: Option<Context> := None;
      var ev: Option<Context> := None;
      var i := 0;
      while i < |cs|
        invariant 0 <= i <= |cs|
        invariant s1 == Nth(Sunshines(cs[..i]), 0) && s2 == Nth(Sunshines(cs[..i]), 1)
        invariant ev == Last(Evapos(cs[..i]))
      {
        var c := cs[i];
        ScanAdvance(cs, i, s1, s2, ev);
        if IsSunshine(c) {
          if s1.None? {
            s1 := Some(c);
          } else if s2.None? {
            s2 := Some(c);
          }
        }
        if IsEvapo(c) {
          ev := Some(c);
        }
        i := i + 1;
      }
      assert cs[..i] == cs;
      sunshine1, sunshine2, evapo := s1, s2, ev;
    }
  }

  // ------------------------------------------------------------ precipitation

  /** The accumulation periods of the total precipitation, from the longest. */
  datatype PrecPeriod = P24 | P12 | P6 | P3 | P1

  /** The descriptor for the total precipitation over a period. */
  function PrecCodeOf(p: PrecPeriod): (r: int)
    ensures WrVar(0, 13, 19) <= r <= WrVar(0, 13, 23)
  {
    match p
    case P24 => WrVar(0, 13, 23)
    case P12 => WrVar(0, 13, 22)
    case P6 => WrVar(0, 13, 21)
    case P3 => WrVar(0, 13, 20)
    case P1 => WrVar(0, 13, 19)
  }

  /** The switch of `add_prec`: the period a descriptor asks for. */
  function PeriodOfPrecCode(code: int): (r: Option<PrecPeriod>)
    ensures r.Some? <==> WrVar(0, 13, 19) <= code <= WrVar(0, 13, 23)
    ensures r.Some? ==> PrecCodeOf(r.value) == code
  {
    if code == WrVar(0, 13, 23) then Some(P24)
    else if code == WrVar(0, 13, 22) then Some(P12)
    else if code == WrVar(0, 13, 21) then Some(P6)
    else if code == WrVar(0, 13, 20) then Some(P3)
    else if code == WrVar(0, 13, 19) then Some(P1)
    else None
  }

  /** Descriptors and periods correspond one to one. */
  lemma PrecCodeRoundTrip(p: PrecPeriod, code: int)
    ensures PeriodOfPrecCode(PrecCodeOf(p)) == Some(p)
    ensures PeriodOfPrecCode(code) == Some(p) ==> code == PrecCodeOf(p)
  {
  }

  /** The best precipitation of one message: the longest period it has a total for. */
  function BestPrec(m: Msg, totPrec: (Msg, PrecPeriod) -> Option<Var>): (r: Option<int>)
    ensures r.Some? ==> PeriodOfPrecCode(r.value).Some? && totPrec(m, PeriodOfPrecCode(r.value).value).Some?
    ensures r.None? <==> totPrec(m, P24).None? && totPrec(m, P12).None? && totPrec(m, P6).None? &&
                         totPrec(m, P3).None? && totPrec(m, P1).None?
  {
    if totPrec(m, P24).Some? then Some(PrecCodeOf(P24))
    else if totPrec(m, P12).Some? then Some(PrecCodeOf(P12))
    else if totPrec(m, P6).Some? then Some(PrecCodeOf(P6))
    else if totPrec(m, P3).Some? then Some(PrecCodeOf(P3))
    else if totPrec(m, P1).Some? then Some(PrecCodeOf(P1))
    else None
  }

  /** The precipitation descriptor of a bulletin: the best one of the first message that has any, else 24 hours. */
  function ChosenPrecCode(msgs: seq<Msg>, totPrec: (Msg, PrecPeriod) -> Option<Var>): (r: int)
    ensures PeriodOfPrecCode(r).Some?
    decreases |msgs|
  {
    if msgs == [] then PrecCodeOf(P24)
    else if BestPrec(msgs[0], totPrec).Some? then BestPrec(msgs[0], totPrec).value
    else ChosenPrecCode(msgs[1..], totPrec)
  }

  /** Message `k` is the first one with any total precipitation. */
  predicate FirstWithPrec(msgs: seq<Msg>, totPrec: (Msg, PrecPeriod) -> Option<Var>, k: int)
  {
    0 <= k < |msgs| && BestPrec(msgs[k], totPrec).Some? &&
    forall j :: 0 <= j < k ==> BestPrec(msgs[j], totPrec).None?
  }

  /**
   * The chosen descriptor is always a precipitation descriptor; it comes
   * from the first message with any total precipitation, and is the
   * 24-hour one when no message has any.
   */
  lemma {:induction false} ChosenPrecCodeDecided(msgs: seq<Msg>, totPrec: (Msg, PrecPeriod) -> Option<Var>)
    ensures PeriodOfPrecCode(ChosenPrecCode(msgs, totPrec)).Some?
    ensures (forall i :: 0 <= i < |msgs| ==> BestPrec(msgs[i], totPrec).None?) ==>
      ChosenPrecCode(msgs, totPrec) == PrecCodeOf(P24)
    ensures forall k :: FirstWithPrec(msgs, totPrec, k) ==>
      ChosenPrecCode(msgs, totPrec) == BestPrec(msgs[k], totPrec).value
    decreases |msgs|
  {
    if msgs != [] && BestPrec(msgs[0], totPrec).None? {
      ChosenPrecCodeDecided(msgs[1..], totPrec);
      assert forall i :: 1 <= i < |msgs| ==> msgs[i] == msgs[1..][i - 1];
      forall k | FirstWithPrec(msgs, totPrec, k)
        ensures ChosenPrecCode(msgs, totPrec) == BestPrec(msgs[k], totPrec).value
      {
        assert k >= 1;
        assert msgs[1..][k - 1] == msgs[k];
        forall j | 0 <= j < k - 1
          ensures BestPrec(msgs[1..][j], totPrec).None?
        {
          assert msgs[1..][j] == msgs[j + 1];
        }
      }
    }
  }

  /** One value a template stores in a subset: a defined variable, or an undefined descriptor. */
  datatype Entry = Stored(code: int, value: Option<int>) | Undef(code: int)

  /** `add_prec`: the precipitation of the chosen period under the chosen descriptor, or an undefined one. */
  function AddPrec(m: Msg, precCode: int, totPrec: (Msg, PrecPeriod) -> Option<Var>): (e: Entry)
    ensures e.code == precCode
    ensures e.Stored? <==> PeriodOfPrecCode(precCode).Some? && totPrec(m, PeriodOfPrecCode(precCode).value).Some?
    ensures e.Stored? ==> e.value == totPrec(m, PeriodOfPrecCode(precCode).value).value.value
  {
    match PeriodOfPrecCode(precCode)
    case None => Undef(precCode)
    case Some(p) =>
      match totPrec(m, p)
      case None => Undef(precCode)
      case Some(v) => Stored(precCode, v.value)
  }

  /** The loop of `SynopECMWF::setupBulletin` choosing the precipitation descriptor. */
  method ChoosePrecCode(msgs: seq<Msg>, totPrec: (Msg, PrecPeriod) -> Option<Var>) returns (precCode: int)
    ensures precCode == ChosenPrecCode(msgs, totPrec)
  {
    precCode := 0;
    var i := 0;
    while precCode == 0 && i < |msgs|
      invariant 0 <= i <= |msgs|
      invariant precCode == 0 ==> ChosenPrecCode(msgs, totPrec) == ChosenPrecCode(msgs[i..], totPrec)
      invariant precCode != 0 ==> precCode == ChosenPrecCode(msgs, totPrec)
    {
      var m := msgs[i];
      assert msgs[i..][1..] == msgs[i + 1..];
      if totPrec(m, P24).Some? {
        precCode := WrVar(0, 13, 23);
      } else if totPrec(m, P12).Some? {
        precCode := WrVar(0, 13, 22);
      } else if totPrec(m, P6).Some? {
        precCode := WrVar(0, 13, 21);
      } else if totPrec(m, P3).Some? {
        precCode := WrVar(0, 13, 20);
      } else if totPrec(m, P1).Some? {
        precCode := WrVar(0, 13, 19);
      }
      i := i + 1;
    }
    if precCode == 0 {
      precCode := WrVar(0, 13, 23);
    }
  }

  // ------------------------------------------------------------ the ECMWF templates

  /** The three concrete ECMWF templates. */
  datatype EcmwfVariant = Land | LandHigh | Auto

  /** The header of an ECMWF synop bulletin: category 0, subcategory 255 and the variant's descriptors. */
  function EcmwfHeader(v: EcmwfVariant, precCode: int, isCrex: bool): (h: Header)
    ensures h.bulletinType == 0 && h.subtype == 255
    ensures h.localsubtype == if v == Auto then 3 else 1
    ensures |h.datadesc| >= 3 && h.datadesc[1] == precCode && h.datadesc[2] == WrVar(0, 13, 13)
    ensures h.datadesc[0] == if v == LandHigh then WrVar(3, 7, 7) else WrVar(3, 7, 5)
    ensures |h.datadesc| == if isCrex then 3 else 10
  {
    var n := if v == LandHigh then 34 else 49;
    var head := [if v == LandHigh then WrVar(3, 7, 7) else WrVar(3, 7, 5), precCode, WrVar(0, 13, 13)];
    var tail := if isCrex then [] else
      [WrVar(2, 22, 0), WrVar(1, 1, n), WrVar(0, 31, 31), WrVar(0, 1, 31), WrVar(0, 1, 32), WrVar(1, 1, n), WrVar(0, 33, 7)];
    Header(0, 255, if v == Auto then 3 else 1, head + tail)
  }

  /** `SynopECMWFAuto` is `SynopECMWFLand` with local subcategory 3. */
  lemma AutoIsLandWithSubtype3(precCode: int, isCrex: bool)
    ensures EcmwfHeader(Auto, precCode, isCrex) == EcmwfHeader(Land, precCode, isCrex).(localsubtype := 3)
  {
  }

  /** An ECMWF synop template: `SynopECMWFLand`, `SynopECMWFLandHigh` or `SynopECMWFAuto`. */
  class SynopEcmwf {
    const variant: EcmwfVariant
    const base: Template
    const levels: Synop
    var isCrex: bool
    var precCode: int

    constructor (variant: EcmwfVariant, opts: ExporterOptions, msgs: seq<Msg>)
      ensures this.variant == variant && base.msgs == msgs && base.opts == opts
      ensures base.name == EcmwfName(variant) && fresh(base) && fresh(levels)
    {
      this.variant := variant;
      base := new Template(EcmwfName(variant), opts, msgs);
      levels := new Synop();
      isCrex := false;
      precCode := 0;
    }

    /**
     * `setupBulletin`: the common header, the old master table 13 for
     * BUFR, the precipitation descriptor of the whole message set, and the
     * variant's category, subcategories and descriptors.
     */
    method SetupBulletin(b: OutBulletin, now: Tm, totPrec: (Msg, PrecPeriod) -> Option<Var>)
      requires |base.msgs| > 0
      modifies b, `isCrex, `precCode
      ensures b.Reference() == ReferenceTime(base.msgs[0].date, now)
      ensures b.encoding == BUFR ==> b.masterTable == 13 && b.edition == 4
      ensures b.encoding == CREX ==> b.masterTable == 0 && b.edition == 2
      ensures isCrex <==> b.encoding == CREX
      ensures precCode == ChosenPrecCode(base.msgs, totPrec)
      ensures b.Chosen() == EcmwfHeader(variant, precCode, isCrex)
      ensures b.subsets == old(b.subsets)
    {
      base.SetupBulletin(b, now);
      if b.encoding == BUFR {
        b.SetMasterTable(13);
      }
      isCrex := b.encoding == CREX;
      precCode := ChoosePrecCode(base.msgs, totPrec);
      b.SetChosen(EcmwfHeader(variant, precCode, isCrex));
    }

    /** The precipitation entry of a message's subset. */
    function PrecEntry(m: Msg, totPrec: (Msg, PrecPeriod) -> Option<Var>): (e: Entry)
      reads this
      ensures e.code == precCode
    {
      AddPrec(m, precCode, totPrec)
    }
  }

  /** The names of the ECMWF templates. */
  function EcmwfName(v: EcmwfVariant): string
  {
    match v
    case Land => "synop-ecmwf-land"
    case LandHigh => "synop-ecmwf-land-high"
    case Auto => "synop-ecmwf-auto"
  }

  // ------------------------------------------------------------ the WMO template

  /** A cloud group `i` below station level is reported: the message has a context for `Level::cloud(263, i)`. */
  predicate CloudPresent(m: Msg, i: int)
  {
    FindContext(m.contexts, Cloud(263, i), Instant()).Some?
  }

  /** The largest second level value of any context, or 0. */
  function MaxL2(cs: seq<Context>): (r: int)
    ensures r >= 0
    ensures forall i :: 0 <= i < |cs| ==> cs[i].level.l2 <= r
    decreases |cs|
  {
    if cs == [] then 0
    else
      var t := MaxL2(cs[1..]);
      assert forall i :: 1 <= i < |cs| ==> cs[i] == cs[1..][i - 1];
      if cs[0].level.l2 > t then cs[0].level.l2 else t
  }

  /**
   * The count of `do_D02036`: the groups are scanned from 1, always up to 4,
   * and on until the first missing one above 4; the count is the last
   * group found.
   */
  method MaxCloudGroup(m: Msg) returns (r: int)
    ensures r >= 0
    ensures r > 0 ==> CloudPresent(m, r)
    ensures forall i :: r < i <= 4 ==> !CloudPresent(m, i)
    ensures forall i :: 5 <= i <= r ==> CloudPresent(m, i)
    ensures !CloudPresent(m, if r > 4 then r + 1 else 5)
  {
    var bound := if MaxL2(m.contexts) > 4 then MaxL2(m.contexts) else 4;
    r := 0;
    var i := 1;
    while true
      invariant 1 <= i <= bound + 1
      invariant 0 <= r < i
      invariant r > 0 ==> CloudPresent(m, r)
      invariant forall j :: r < j < i ==> !CloudPresent(m, j)
      invariant forall j :: 5 <= j < i ==> CloudPresent(m, j)
      decreases bound + 1 - i
    {
      if FindContext(m.contexts, Cloud(263, i), Instant()).Some? {
        r := i;
      } else if i > 4 {
        break;
      }
      i := i + 1;
    }
  }

  /** `SynopWMO`: the subcategory of its bulletin follows the hours of the messages. */
  class SynopWmo {
    const base: Template
    const levels: Synop
    var isCrex: bool
    var curBulletin: OutBulletin?

    constructor (opts: ExporterOptions, msgs: seq<Msg>)
      ensures base.name == "synop-wmo" && base.msgs == msgs && base.opts == opts
      ensures fresh(base) && fresh(levels) && curBulletin == null
    {
      base := new Template("synop-wmo", opts, msgs);
      levels := new Synop();
      isCrex := false;
      curBulletin := null;
    }

    /** `setupBulletin`: category 0, subcategory 255 until the subsets lower it, local subcategory 255, D07080. */
    method SetupBulletin(b: OutBulletin, now: Tm)
      requires |base.msgs| > 0
      modifies b, `isCrex, `curBulletin
      ensures b.Reference() == ReferenceTime(base.msgs[0].date, now)
      ensures b.Chosen() == Header(0, 255, 255, [WrVar(3, 7, 80)])
      ensures CommonHeader(b.encoding, base.opts, old(b.Codes()), b.Codes())
      ensures isCrex <==> b.encoding == CREX
      ensures curBulletin == b && b.subsets == old(b.subsets)
    {
      base.SetupBulletin(b, now);
      isCrex := b.encoding == CREX;
      b.SetChosen(Header(0, 255, 255, [WrVar(3, 7, 80)]));
      curBulletin := b;
    }

    /** The part of `to_subset` that amends the bulletin: the subcategory for the message's hour. */
    method ToSubset(m: Msg, hour: int)
      requires curBulletin != null
      modifies curBulletin`subtype, levels
      ensures curBulletin.subtype == NextSubtype(old(curBulletin.subtype), hour)
      ensures levels.sunshine1 == Nth(Sunshines(m.contexts), 0) && levels.evapo == Last(Evapos(m.contexts))
    {
      levels.ScanLevels(m);
      var b := curBulletin;
      if hour % 6 == 0 {
        b.subtype := if b.subtype == 255 then 2 else b.subtype;
      } else if hour % 3 == 0 {
        b.subtype := if b.subtype != 0 then 1 else b.subtype;
      } else {
        b.subtype := 0;
      }
    }

    /**
     * `to_bulletin`: the header, then one subset per message; the bulletin
     * ends up with the lowest subcategory any message's hour asks for.
     * `get_hour` is not part of this model and is given as `hourOf`.
     */
    method ToBulletin(b: OutBulletin, now: Tm, hourOf: Msg -> int)
      requires |base.msgs| > 0 && b.subsets == []
      modifies b, levels, `isCrex, `curBulletin
      ensures b.Reference() == ReferenceTime(base.msgs[0].date, now)
      ensures b.subtype == SubtypeAfter(seq(|base.msgs|, i requires 0 <= i < |base.msgs| => hourOf(base.msgs[i])))
      ensures b.subtype == LowestSubtype(seq(|base.msgs|, i requires 0 <= i < |base.msgs| => hourOf(base.msgs[i])))
      ensures |b.subsets| == |base.msgs|
      ensures forall i :: 0 <= i < |base.msgs| ==> b.subsets[i] == [Encoded(base.name, base.msgs[i])]
      ensures CommonHeader(b.encoding, base.opts, old(b.Codes()), b.Codes())
      ensures b.bulletinType == 0 && b.localsubtype == 255 && b.datadesc == [WrVar(3, 7, 80)]
    {
      SetupBulletin(b, now);
      AddSubsets(b, hourOf);
      SubtypeKeepsLowest(seq(|base.msgs|, i requires 0 <= i < |base.msgs| => hourOf(base.msgs[i])));
    }

    /** The loop of `to_bulletin`: message i into subset i, each lowering the subcategory for its hour. */
    method AddSubsets(b: OutBulletin, hourOf: Msg -> int)
      requires curBulletin == b && b.subsets == [] && b.subtype == 255
      modifies b`subsets, b`subtype, levels
      ensures b.subtype == SubtypeAfter(seq(|base.msgs|, i requires 0 <= i < |base.msgs| => hourOf(base.msgs[i])))
      ensures |b.subsets| == |base.msgs|
      ensures forall i :: 0 <= i < |base.msgs| ==> b.subsets[i] == [Encoded(base.name, base.msgs[i])]
    {
      var msgs := base.msgs;
      ghost var hours := seq(|msgs|, i requires 0 <= i < |msgs| => hourOf(msgs[i]));
      var i := 0;
      while i < |msgs|
        invariant 0 <= i <= |msgs|
        invariant b.subtype == SubtypeAfter(hours[..i])
        invariant |b.subsets| == i
        invariant forall j :: 0 <= j < i ==> b.subsets[j] == [Encoded(base.name, msgs[j])]
      {
        b.AddToSubset(i, Encoded(base.name, msgs[i]));
        assert hours[..i + 1][..i] == hours[..i];
        ToSubset(msgs[i], hourOf(msgs[i]));
        i := i + 1;
      }
      assert hours[..i] == hours;
    }
  }

  // ------------------------------------------------------------ factories

  /** The templates the synop factories can make. */
  datatype SynopTemplate = WmoTemplate | EcmwfTemplate(variant: EcmwfVariant)

  /** Some context on a pressure level (ltype1 100) holds a geopotential (B10008). */
  function HasGeopotential(cs: seq<Context>): (r: bool)
    ensures r <==> exists i :: 0 <= i < |cs| && cs[i].level.ltype1 == 100 && FindVar(cs[i].vars, WrVar(0, 10, 8)).Some?
    decreases |cs|
  {
    if cs == [] then false
    else
      var t := HasGeopotential(cs[1..]);
      assert forall i :: 1 <= i < |cs| ==> cs[i] == cs[1..][i - 1];
      (cs[0].level.ltype1 == 100 && FindVar(cs[0].vars, WrVar(0, 10, 8)).Some?) || t
  }

  /**
   * `SynopECMWFFactory::make`: an automatic station (station type 0) gets
   * the auto template, a station with a geopotential on a pressure level the
   * land-high one, any other the land one. `stationType` is the value of
   * the first message's station type variable.
   */
  function EcmwfMake(m: Msg, stationType: Option<int>): (t: EcmwfVariant)
    ensures t == Auto <==> stationType == Some(0)
    ensures t == LandHigh <==> stationType != Some(0) && HasGeopotential(m.contexts)
  {
    if stationType == Some(0) then Auto
    else if HasGeopotential(m.contexts) then LandHigh
    else Land
  }

  /** `SynopFactory::make`: the WMO template when the first message names its station, else the ECMWF choice. */
  function SynopMake(m: Msg, hasStationName: bool, stationType: Option<int>): (t: SynopTemplate)
    ensures t == WmoTemplate <==> hasStationName
    ensures !hasStationName ==> t == EcmwfTemplate(EcmwfMake(m, stationType))
  {
    if hasStationName then WmoTemplate else EcmwfTemplate(EcmwfMake(m, stationType))
  }

  /** The factories `register_synop` registers, in order. */
  const SYNOP_FACTORIES: seq<TemplateFactory> := [
    TemplateFactory("synop", "Synop (autodetect)"),
    TemplateFactory("synop-wmo", "Synop WMO (0.1)"),
    TemplateFactory("synop-ecmwf", "Synop ECMWF (autodetect) (0.1)"),
    TemplateFactory("synop-ecmwf-land", "Synop ECMWF land (0.1)"),
    TemplateFactory("synop-ecmwf-land-high", "Synop ECMWF land high level station (0.1)"),
    TemplateFactory("synop-ecmwf-auto", "Synop ECMWF land auto (0.3)")
  ]

  /** `register_synop`: every synop factory is registered, and a name already taken keeps its factory. */
  method RegisterSynop(r: TemplateRegistry)
    modifies r
    ensures forall f :: f in SYNOP_FACTORIES ==> f.name in r.factories
    ensures forall n :: n in old(r.factories) ==> n in r.factories && r.factories[n] == old(r.factories)[n]
    ensures forall n :: n in r.factories && n !in old(r.factories) ==>
      exists f :: f in SYNOP_FACTORIES && f.name == n && r.factories[n] == f
  {
    r.RegisterAll(SYNOP_FACTORIES);
  }
}
