/**
 * The TEMP and PILOT export templates (`dballe/msg/wr_exporters/temp.cc`):
 * which contexts of a message become sounding levels, how the replication
 * counts in front of them are filled, the header each template sets, the
 * pressure/height vote of `PilotWMO`, and the factories that choose a
 * template.
 *
 * The values stored inside each level group are not part of this model: a
 * group is represented by the context it comes from. `Context::find_vsig`
 * and the message accessors (`get_ident_var`, `get_block_var`,
 * `get_sonde_tracking_var`, `get_meas_equip_type_var`) are not part of this
 * model either; their answers are parameters.
 */
module TempExport {
  import opened Wrappers
  import opened Defs
  import opened WrCodec

  // ------------------------------------------------------------ level selection

  /** The context holds a variable with this code. */
  predicate Has(c: Context, code: int)
  {
    FindVar(c.vars, code).Some?
  }

  /** The context holds geopotential, temperature, dew-point or wind data. */
  predicate HasSoundingData(c: Context)
  {
    Has(c, WrVar(0, 10, 8)) || Has(c, WrVar(0, 12, 101)) || Has(c, WrVar(0, 12, 103)) ||
    Has(c, WrVar(0, 11, 1)) || Has(c, WrVar(0, 11, 2))
  }

  /** The context holds wind shear data. */
  predicate HasWindShear(c: Context)
  {
    Has(c, WrVar(0, 11, 61)) || Has(c, WrVar(0, 11, 62))
  }

  /** The conditions by which the loops of the templates pick contexts. */
  datatype LevelFilter =
    | Sounding                      // a vertical sounding significance
    | SoundingPressure              // ... on a pressure level
    | WmoSounding                   // the D03054 loop of TempWMO
    | WmoWindShear                  // the D03051 loop of TempWMO
    | RadarHeight                   // a height level, for TempRadar
    | PilotSounding(pressure: bool) // the first loop of PilotWMO
    | PilotWindShear(pressure: bool) // the wind shear loop of PilotWMO
    | PressureLevel                 // ltype1 100, for the PilotWMO vote
    | HeightLevel                   // ltype1 102 or 103, for the PilotWMO vote

  /** Whether filter `f` picks context `c`; `hasVsig` stands for `find_vsig() != NULL`. */
  predicate Keeps(f: LevelFilter, c: Context, hasVsig: Context -> bool)
  {
    match f
    case Sounding => hasVsig(c)
    case SoundingPressure => hasVsig(c) && c.level.ltype1 == 100
    case WmoSounding => hasVsig(c) && (HasSoundingData(c) || !HasWindShear(c))
    case WmoWindShear => c.level.ltype1 == 100 && HasWindShear(c)
    case RadarHeight => c.level.ltype1 == 102
    case PilotSounding(p) => hasVsig(c) && c.level.ltype1 == (if p then 100 else 102)
    case PilotWindShear(p) => c.level.ltype1 == (if p then 100 else 102)
    case PressureLevel => c.level.ltype1 == 100
    case HeightLevel => c.level.ltype1 == 102 || c.level.ltype1 == 103
  }

  /** The number of contexts the filter picks. */
  function CountIf(cs: seq<Context>, f: LevelFilter, hasVsig: Context -> bool): nat
    decreases |cs|
  {
    if cs == [] then 0
    else CountIf(cs[..|cs| - 1], f, hasVsig) + (if Keeps(f, cs[|cs| - 1], hasVsig) then 1 else 0)
  }

  /** The positions of the contexts the filter picks. */
  function Matching(cs: seq<Context>, f: LevelFilter, hasVsig: Context -> bool): set<int>
  {
    set i | 0 <= i < |cs| && Keeps(f, cs[i], hasVsig)
  }

  /** `CountIf` counts exactly the positions the filter picks. */
  lemma {:induction false} CountIfIsCardinality(cs: seq<Context>, f: LevelFilter, hasVsig: Context -> bool)
    ensures CountIf(cs, f, hasVsig) == |Matching(cs, f, hasVsig)|
    decreases |cs|
  {
    if cs != [] {
      var n := |cs| - 1;
      CountIfIsCardinality(cs[..n], f, hasVsig);
      var keep := Keeps(f, cs[n], hasVsig);
      MatchingSnoc(cs, f, hasVsig);
      var mi := Matching(cs[..n], f, hasVsig);
      assert n !in mi;
      if keep {
        assert |mi + {n}| == |mi| + 1;
      }
    }
  }

  /** Picking over one more context adds its position, when the filter keeps it. */
  lemma MatchingSnoc(cs: seq<Context>, f: LevelFilter, hasVsig: Context -> bool)
    requires cs != []
    ensures var n := |cs| - 1;
      Matching(cs, f, hasVsig) ==
        Matching(cs[..n], f, hasVsig) + (if Keeps(f, cs[n], hasVsig) then {n} else {})
  {
    var n := |cs| - 1;
    var m, mi := Matching(cs, f, hasVsig), Matching(cs[..n], f, hasVsig);
    var last: set<int> := if Keeps(f, cs[n], hasVsig) then {n} else {};
    forall x
      ensures x in m <==> x in mi + last
    {
      if 0 <= x < n {
        assert cs[..n][x] == cs[x];
      }
    }
  }

  /** Counting from the front gives the same number. */
  lemma {:induction false} CountIfFront(cs: seq<Context>, f: LevelFilter, hasVsig: Context -> bool)
    requires cs != []
    ensures CountIf(cs, f, hasVsig) == (if Keeps(f, cs[0], hasVsig) then 1 else 0) + CountIf(cs[1..], f, hasVsig)
    decreases |cs|
  {
    if |cs| > 1 {
      var init := cs[..|cs| - 1];
      CountIfFront(init, f, hasVsig);
      assert init[0] == cs[0];
      assert init[1..] == cs[1..][..|cs[1..]| - 1];
      assert cs[1..][|cs[1..]| - 1] == cs[|cs| - 1];
    } else {
      assert cs[..0] == [] && cs[1..] == [];
    }
  }

  /** Counting over two runs of contexts adds up. */
  lemma {:induction false} CountIfAppend(a: seq<Context>, b: seq<Context>, f: LevelFilter, hasVsig: Context -> bool)
    ensures CountIf(a + b, f, hasVsig) == CountIf(a, f, hasVsig) + CountIf(b, f, hasVsig)
    decreases |b|
  {
    if b == [] {
      assert a + b == a;
    } else {
      var binit := b[..|b| - 1];
      CountIfAppend(a, binit, f, hasVsig);
      assert (a + b)[..|a + b| - 1] == a + binit;
      assert (a + b)[|a + b| - 1] == b[|b| - 1];
    }
  }

  /**
   * The contexts a loop walking the message backwards picks, in the order it
   * meets them: from the last context to the first.
   */
  function Kept(cs: seq<Context>, f: LevelFilter, hasVsig: Context -> bool): seq<Context>
    decreases |cs|
  {
    if cs == [] then [] else Kept(cs[1..], f, hasVsig) + (if Keeps(f, cs[0], hasVsig) then [cs[0]] else [])
  }

  /** The backward walk picks every context the filter accepts, and nothing else. */
  lemma {:induction false} KeptMembers(cs: seq<Context>, f: LevelFilter, hasVsig: Context -> bool)
    ensures forall c :: c in Kept(cs, f, hasVsig) <==> c in cs && Keeps(f, c, hasVsig)
    decreases |cs|
  {
    if cs != [] {
      KeptMembers(cs[1..], f, hasVsig);
      assert forall c :: c in cs <==> c == cs[0] || c in cs[1..];
    }
  }

  /** The backward walk picks as many contexts as the filter counts. */
  lemma {:induction false} KeptCount(cs: seq<Context>, f: LevelFilter, hasVsig: Context -> bool)
    ensures |Kept(cs, f, hasVsig)| == CountIf(cs, f, hasVsig)
    decreases |cs|
  {
    if cs != [] {
      KeptCount(cs[1..], f, hasVsig);
      CountIfFront(cs, f, hasVsig);
    }
  }

  /** `count_levels`: the number of contexts with a vertical sounding significance. */
  method CountLevels(cs: seq<Context>, hasVsig: Context -> bool) returns (levNo: nat)
    ensures levNo == CountIf(cs, Sounding, hasVsig)
    ensures levNo == |Matching(cs, Sounding, hasVsig)|
  {
    levNo := 0;
    var i := 0;
    while i < |cs|
      invariant 0 <= i <= |cs|
      invariant levNo == CountIf(cs[..i], Sounding, hasVsig)
    {
      assert cs[..i + 1][..i] == cs[..i];
      if hasVsig(cs[i]) {
        levNo := levNo + 1;
      }
      i := i + 1;
    }
    assert cs[..i] == cs;
    CountIfIsCardinality(cs, Sounding, hasVsig);
  }

  // ------------------------------------------------------------ replicated groups

  /** A slot of a subset, as far as the replication structure goes. */
  datatype Item = Undef | Count(n: int) | Group(ctx: Context)

  /** One group per context. */
  function Groups(cs: seq<Context>): (r: seq<Item>)
    ensures |r| == |cs| && forall i :: 0 <= i < |cs| ==> r[i] == Group(cs[i])
  {
    seq(|cs|, i requires 0 <= i < |cs| => Group(cs[i]))
  }

  /** A replication count followed by the groups of the contexts the filter picks, walking backwards. */
  function Replicated(cs: seq<Context>, f: LevelFilter, hasVsig: Context -> bool): seq<Item>
  {
    [Count(|Kept(cs, f, hasVsig)|)] + Groups(Kept(cs, f, hasVsig))
  }

  /**
   * Every replication count announces exactly the groups that follow it,
   * each of them for a context the filter accepts, and as many as the
   * filter counts.
   */
  lemma ReplicationCountMatches(cs: seq<Context>, f: LevelFilter, hasVsig: Context -> bool)
    ensures Replicated(cs, f, hasVsig)[0] == Count(|Replicated(cs, f, hasVsig)| - 1)
    ensures Replicated(cs, f, hasVsig)[0].n == CountIf(cs, f, hasVsig)
    ensures forall j :: 1 <= j < |Replicated(cs, f, hasVsig)| ==>
      Replicated(cs, f, hasVsig)[j].Group? && Replicated(cs, f, hasVsig)[j].ctx in cs &&
      Keeps(f, Replicated(cs, f, hasVsig)[j].ctx, hasVsig)
  {
    KeptCount(cs, f, hasVsig);
    KeptMembers(cs, f, hasVsig);
    var r := Replicated(cs, f, hasVsig);
    var k := Kept(cs, f, hasVsig);
    forall j | 1 <= j < |r|
      ensures r[j].Group? && r[j].ctx in cs && Keeps(f, r[j].ctx, hasVsig)
    {
      assert r[j] == Group(k[j - 1]);
      assert k[j - 1] in k;
    }
  }

  /** One more context, walking backwards: its group follows those of the later contexts when the filter keeps it. */
  lemma KeptStep(cs: seq<Context>, i: nat, f: LevelFilter, hasVsig: Context -> bool)
    requires i < |cs|
    ensures Groups(Kept(cs[i..], f, hasVsig)) ==
            Groups(Kept(cs[i + 1..], f, hasVsig)) + (if Keeps(f, cs[i], hasVsig) then [Group(cs[i])] else [])
    ensures |Kept(cs[i..], f, hasVsig)| == |Kept(cs[i + 1..], f, hasVsig)| + (if Keeps(f, cs[i], hasVsig) then 1 else 0)
  {
    assert cs[i..][1..] == cs[i + 1..];
  }

  /** Back-filling the slot reserved before the groups. */
  lemma FillSlot(pre: seq<Item>, gs: seq<Item>, n: Item)
    ensures (pre + [Undef] + gs)[|pre| := n] == pre + [n] + gs
  {
  }

  /** The subset a template is filling. */
  class SubsetBuffer {
    var items: seq<Item>

    constructor ()
      ensures items == []
    {
      items := [];
    }

    /**
     * The back-filled replication of the templates: an undefined count
     * slot, the groups of the picked contexts from the last one back, then
     * `seti` of the number of groups into the slot.
     */
    method AppendReplicated(cs: seq<Context>, f: LevelFilter, hasVsig: Context -> bool)
      modifies this
      ensures items == old(items) + Replicated(cs, f, hasVsig)
    {
      var repCountPos := |items|;
      items := items + [Undef];
      var groupCount := 0;
      var i := |cs|;
      while i > 0
        invariant 0 <= i <= |cs|
        invariant groupCount == |Kept(cs[i..], f, hasVsig)|
        invariant items == old(items) + [Undef] + Groups(Kept(cs[i..], f, hasVsig))
      {
        i := i - 1;
        KeptStep(cs, i, f, hasVsig);
        if Keeps(f, cs[i], hasVsig) {
          items := items + [Group(cs[i])];
          groupCount := groupCount + 1;
        }
      }
      assert cs[0..] == cs;
      FillSlot(old(items), Groups(Kept(cs, f, hasVsig)), Count(groupCount));
      items := items[repCountPos := Count(groupCount)];
    }

    /**
     * `add_sounding_levels` as written: the count is `count_levels()`,
     * taken over every sounding context, but groups are only stored for
     * the sounding contexts on pressure levels.
     */
    method AddSoundingLevelsAsWritten(cs: seq<Context>, hasVsig: Context -> bool) returns (count: nat)
      modifies this
      ensures count == CountIf(cs, Sounding, hasVsig)
      ensures items == old(items) + [Count(count)] + Groups(Kept(cs, SoundingPressure, hasVsig))
    {
      count := CountLevels(cs, hasVsig);
      items := items + [Count(count)];
      var i := |cs|;
      while i > 0
        invariant 0 <= i <= |cs|
        invariant items == old(items) + [Count(count)] + Groups(Kept(cs[i..], SoundingPressure, hasVsig))
      {
        i := i - 1;
        KeptStep(cs, i, SoundingPressure, hasVsig);
        if hasVsig(cs[i]) && cs[i].level.ltype1 == 100 {
          items := items + [Group(cs[i])];
        }
      }
      assert cs[0..] == cs;
    }

    /** `add_sounding_levels` with the count taken over the levels it stores. */
    method AddSoundingLevels(cs: seq<Context>, hasVsig: Context -> bool) returns (count: nat)
      modifies this
      ensures count == CountIf(cs, SoundingPressure, hasVsig)
      ensures items == old(items) + Replicated(cs, SoundingPressure, hasVsig)
    {
      AppendReplicated(cs, SoundingPressure, hasVsig);
      KeptCount(cs, SoundingPressure, hasVsig);
      count := |Kept(cs, SoundingPressure, hasVsig)|;
    }
  }

  /** The vertical sounding significance read as the presence of B08042. */
  predicate HasB08042(c: Context)
  {
    Has(c, WrVar(0, 8, 42))
  }

  /**
   * A sounding context on a height level makes `add_sounding_levels`
   * announce one level and store none.
   */
  lemma SoundingCountExceedsGroups()
    ensures var c := Context(Level(102, 1000, MISSING_INT, MISSING_INT), Instant(), [Var(WrVar(0, 8, 42), Some(0))]);
      CountIf([c], Sounding, HasB08042) == 1 && Kept([c], SoundingPressure, HasB08042) == []
  {
    var c := Context(Level(102, 1000, MISSING_INT, MISSING_INT), Instant(), [Var(WrVar(0, 8, 42), Some(0))]);
    assert FindVar(c.vars, WrVar(0, 8, 42)).Some?;
    assert [c][..0] == [] && [c][1..] == [];
  }

  // ------------------------------------------------------------ the templates

  /** The concrete TEMP and PILOT templates. */
  datatype TempVariant = TempWmo | TempRadar | TempEcmwfLand | TempEcmwfShip | PilotWmo | PilotEcmwf

  /** The names of the templates. */
  function TempName(v: TempVariant): string
  {
    match v
    case TempWmo => "temp-wmo"
    case TempRadar => "temp-radar"
    case TempEcmwfLand => "temp-ecmwf-land"
    case TempEcmwfShip => "temp-ecmwf-ship"
    case PilotWmo => "pilot-wmo"
    case PilotEcmwf => "pilot-ecmwf"
  }

  /** The ECMWF templates, which end with the data present bitmap of the quality information in BUFR. */
  predicate IsEcmwf(v: TempVariant)
  {
    v == TempEcmwfLand || v == TempEcmwfShip || v == PilotEcmwf
  }

  /** The data present bitmap descriptors the ECMWF templates add in BUFR. */
  const DPB_TAIL: seq<int> := [
    WrVar(2, 22, 0), WrVar(1, 1, 0), WrVar(0, 31, 2), WrVar(0, 31, 31), WrVar(0, 1, 31),
    WrVar(0, 1, 32), WrVar(1, 1, 0), WrVar(0, 31, 2), WrVar(0, 33, 7)
  ]

  /** The message decides the local subcategory of `TempBase::setupBulletin`. */
  predicate Decides(m: Msg, hasIdent: Msg -> bool, hasBlock: Msg -> bool)
  {
    m.msgType == Pilot || hasIdent(m) || hasBlock(m)
  }

  /** The local subcategory a deciding message gives: 91 for a pilot, 102 with an ident, 101 with a block. */
  function DecidedSubcategory(m: Msg, hasIdent: Msg -> bool): int
  {
    if m.msgType == Pilot then 91 else if hasIdent(m) then 102 else 101
  }

  /** The local subcategory of `TempBase::setupBulletin`: 101 unless the first deciding message says otherwise. */
  function LocalSubcategory(msgs: seq<Msg>, hasIdent: Msg -> bool, hasBlock: Msg -> bool): (r: int)
    ensures r in {91, 101, 102}
    decreases |msgs|
  {
    if msgs == [] then 101
    else if Decides(msgs[0], hasIdent, hasBlock) then DecidedSubcategory(msgs[0], hasIdent)
    else LocalSubcategory(msgs[1..], hasIdent, hasBlock)
  }

  /** Message `k` is the first deciding message. */
  predicate FirstDecider(msgs: seq<Msg>, hasIdent: Msg -> bool, hasBlock: Msg -> bool, k: int)
  {
    0 <= k < |msgs| && Decides(msgs[k], hasIdent, hasBlock) &&
    forall j :: 0 <= j < k ==> !Decides(msgs[j], hasIdent, hasBlock)
  }

  /** The local subcategory is 91, 101 or 102; the first deciding message fixes it, and without one it is 101. */
  lemma {:induction false} LocalSubcategoryDecided(msgs: seq<Msg>, hasIdent: Msg -> bool, hasBlock: Msg -> bool)
    ensures LocalSubcategory(msgs, hasIdent, hasBlock) in {91, 101, 102}
    ensures (forall i :: 0 <= i < |msgs| ==> !Decides(msgs[i], hasIdent, hasBlock)) ==>
      LocalSubcategory(msgs, hasIdent, hasBlock) == 101
    ensures forall k :: FirstDecider(msgs, hasIdent, hasBlock, k) ==>
      LocalSubcategory(msgs, hasIdent, hasBlock) == DecidedSubcategory(msgs[k], hasIdent)
    decreases |msgs|
  {
    if msgs != [] && !Decides(msgs[0], hasIdent, hasBlock) {
      LocalSubcategoryDecided(msgs[1..], hasIdent, hasBlock);
      assert forall i :: 1 <= i < |msgs| ==> msgs[i] == msgs[1..][i - 1];
      forall k | FirstDecider(msgs, hasIdent, hasBlock, k)
        ensures LocalSubcategory(msgs, hasIdent, hasBlock) == DecidedSubcategory(msgs[k], hasIdent)
      {
        assert k >= 1;
        assert FirstDecider(msgs[1..], hasIdent, hasBlock, k - 1);
      }
    }
  }

  /** The loop of `TempBase::setupBulletin` over the messages. */
  method ChooseLocalSubcategory(msgs: seq<Msg>, hasIdent: Msg -> bool, hasBlock: Msg -> bool) returns (local: int)
    ensures local == LocalSubcategory(msgs, hasIdent, hasBlock)
  {
    local := 101;
    var i := 0;
    while i < |msgs|
      invariant 0 <= i <= |msgs|
      invariant local == 101
      invariant LocalSubcategory(msgs, hasIdent, hasBlock) == LocalSubcategory(msgs[i..], hasIdent, hasBlock)
    {
      var m := msgs[i];
      assert msgs[i..][1..] == msgs[i + 1..];
      if m.msgType == Pilot {
        local := 91;
        return;
      } else if hasIdent(m) {
        local := 102;
        return;
      } else if hasBlock(m) {
        return;
      }
      i := i + 1;
    }
  }

  /** Some message is a ship sounding. */
  predicate AnyShip(msgs: seq<Msg>)
  {
    exists i :: 0 <= i < |msgs| && msgs[i].msgType == TempShip
  }

  /** The loop of `TempWMO::setupBulletin`: subcategory 5 if any message is a ship sounding, else 4. */
  method WmoSubcategory(msgs: seq<Msg>) returns (subtype: int)
    ensures subtype == if AnyShip(msgs) then 5 else 4
  {
    subtype := 4;
    var i := 0;
    while i < |msgs|
      invariant 0 <= i <= |msgs|
      invariant forall j :: 0 <= j < i ==> msgs[j].msgType != TempShip
    {
      if msgs[i].msgType == TempShip {
        subtype := 5;
        return;
      }
      i := i + 1;
    }
  }

  /** The descriptors of a template, before the data present bitmap. */
  function CoreDescriptors(v: TempVariant, pressureLevs: bool): (r: seq<int>)
    ensures r != []
    ensures v == TempWmo || v == TempEcmwfLand || v == PilotWmo ==> |r| == 1 && r[0] / 0x4000 == 3
  {
    match v
    case TempWmo => [WrVar(3, 9, 52)]
    case TempRadar => [
      WrVar(0, 1, 33), WrVar(0, 1, 34), WrVar(3, 1, 1), WrVar(3, 1, 11), WrVar(3, 1, 12), WrVar(3, 1, 22),
      WrVar(0, 2, 3), WrVar(0, 2, 121), WrVar(0, 2, 125), WrVar(1, 7, 0), WrVar(0, 31, 1), WrVar(0, 7, 7),
      WrVar(0, 11, 1), WrVar(0, 11, 2), WrVar(0, 33, 2), WrVar(0, 11, 6), WrVar(0, 33, 2), WrVar(0, 11, 50)]
    case TempEcmwfLand => [WrVar(3, 9, 7)]
    case TempEcmwfShip => [
      WrVar(3, 1, 3), WrVar(0, 2, 11), WrVar(0, 2, 12), WrVar(3, 1, 11), WrVar(3, 1, 12), WrVar(3, 1, 23),
      WrVar(0, 7, 1), WrVar(3, 2, 4), WrVar(1, 1, 0), WrVar(0, 31, 1), WrVar(3, 3, 14)]
    case PilotWmo => [if pressureLevs then WrVar(3, 9, 50) else WrVar(3, 9, 51)]
    case PilotEcmwf => [
      WrVar(3, 1, 1), WrVar(0, 2, 11), WrVar(0, 2, 12), WrVar(3, 1, 11), WrVar(3, 1, 12), WrVar(3, 1, 22),
      WrVar(1, 5, 0), WrVar(0, 31, 1), WrVar(0, 7, 4), WrVar(0, 8, 1), WrVar(0, 10, 3), WrVar(0, 11, 1),
      WrVar(0, 11, 2)]
  }

  /**
   * The header a template sets: the ECMWF templates keep category 2,
   * subcategory 255 and the scanned local subcategory; the others set
   * their own.
   */
  function TempHeader(v: TempVariant, local: int, anyShip: bool, pressureLevs: bool, isCrex: bool): (h: Header)
    ensures IsEcmwf(v) ==> h.bulletinType == 2 && h.subtype == 255 && h.localsubtype == local
    ensures v == TempWmo ==> h.bulletinType == 2 && h.subtype == (if anyShip then 5 else 4) && h.localsubtype == 255
    ensures v == TempRadar ==> h.bulletinType == 6 && h.subtype == 1 && h.localsubtype == 255
    ensures v == PilotWmo ==> h.bulletinType == 2 && h.subtype == 1 && h.localsubtype == 255
    ensures v == PilotWmo ==> h.datadesc == [if pressureLevs then WrVar(3, 9, 50) else WrVar(3, 9, 51)]
    ensures !IsEcmwf(v) || isCrex ==> h.datadesc == CoreDescriptors(v, pressureLevs)
  {
    var desc := CoreDescriptors(v, pressureLevs) + (if IsEcmwf(v) && !isCrex then DPB_TAIL else []);
    match v
    case TempWmo => Header(2, if anyShip then 5 else 4, 255, desc)
    case TempRadar => Header(6, 1, 255, desc)
    case PilotWmo => Header(2, 1, 255, desc)
    case _ => Header(2, 255, local, desc)
  }

  /** In BUFR the ECMWF templates add the data present bitmap after what they send in CREX. */
  lemma EcmwfBufrAddsBitmap(v: TempVariant, local: int, anyShip: bool, pressureLevs: bool)
    requires IsEcmwf(v)
    ensures TempHeader(v, local, anyShip, pressureLevs, false).datadesc ==
      TempHeader(v, local, anyShip, pressureLevs, true).datadesc + DPB_TAIL
  {
  }

  /** The groups a template stores for one message. */
  function Replications(v: TempVariant, pressureLevs: bool, cs: seq<Context>, hasVsig: Context -> bool): (r: seq<Item>)
    ensures r != [] && r[0].Count?
    ensures v != TempWmo && v != PilotWmo ==> r[0] == Count(|r| - 1)
    ensures forall j :: 0 <= j < |r| && r[j].Group? ==> r[j].ctx in cs
  {
    match v
    case TempWmo =>
      ReplicationCountMatches(cs, WmoSounding, hasVsig);
      ReplicationCountMatches(cs, WmoWindShear, hasVsig);
      Replicated(cs, WmoSounding, hasVsig) + Replicated(cs, WmoWindShear, hasVsig)
    case TempRadar =>
      ReplicationCountMatches(cs, RadarHeight, hasVsig);
      Replicated(cs, RadarHeight, hasVsig)
    case TempEcmwfLand =>
      ReplicationCountMatches(cs, SoundingPressure, hasVsig);
      Replicated(cs, SoundingPressure, hasVsig)
    case TempEcmwfShip =>
      ReplicationCountMatches(cs, SoundingPressure, hasVsig);
      Replicated(cs, SoundingPressure, hasVsig)
    case PilotWmo =>
      ReplicationCountMatches(cs, PilotSounding(pressureLevs), hasVsig);
      ReplicationCountMatches(cs, PilotWindShear(pressureLevs), hasVsig);
      Replicated(cs, PilotSounding(pressureLevs), hasVsig) + Replicated(cs, PilotWindShear(pressureLevs), hasVsig)
    case PilotEcmwf =>
      ReplicationCountMatches(cs, Sounding, hasVsig);
      Replicated(cs, Sounding, hasVsig)
  }

  /** The number of contexts of all the messages that the filter picks. */
  function TotalIf(msgs: seq<Msg>, f: LevelFilter): nat
    decreases |msgs|
  {
    if msgs == [] then 0
    else TotalIf(msgs[..|msgs| - 1], f) + CountIf(msgs[|msgs| - 1].contexts, f, HasB08042)
  }

  /** The contexts of all the messages, one after the other. */
  function AllContexts(msgs: seq<Msg>): seq<Context>
    decreases |msgs|
  {
    if msgs == [] then [] else AllContexts(msgs[..|msgs| - 1]) + msgs[|msgs| - 1].contexts
  }

  /** The vote counts the contexts of all the messages as one pool. */
  lemma {:induction false} TotalIsPooled(msgs: seq<Msg>, f: LevelFilter)
    ensures TotalIf(msgs, f) == CountIf(AllContexts(msgs), f, HasB08042)
    decreases |msgs|
  {
    if msgs != [] {
      var init := msgs[..|msgs| - 1];
      TotalIsPooled(init, f);
      CountIfAppend(AllContexts(init), msgs[|msgs| - 1].contexts, f, HasB08042);
    }
  }

  /** The pressure/height vote of `PilotWMO::to_bulletin`: pressure levels unless height levels are more. */
  function PressureVote(msgs: seq<Msg>): (r: bool)
    ensures r <==> CountIf(AllContexts(msgs), PressureLevel, HasB08042) >= CountIf(AllContexts(msgs), HeightLevel, HasB08042)
  {
    TotalIsPooled(msgs, PressureLevel);
    TotalIsPooled(msgs, HeightLevel);
    TotalIf(msgs, PressureLevel) >= TotalIf(msgs, HeightLevel)
  }

  /** The counting loops of `PilotWMO::to_bulletin`. */
  method CountLevelTypes(msgs: seq<Msg>) returns (hasPress: nat, hasHeight: nat)
    ensures hasPress == TotalIf(msgs, PressureLevel) && hasHeight == TotalIf(msgs, HeightLevel)
  {
    hasPress, hasHeight := 0, 0;
    var i := 0;
    while i < |msgs|
      invariant 0 <= i <= |msgs|
      invariant hasPress == TotalIf(msgs[..i], PressureLevel) && hasHeight == TotalIf(msgs[..i], HeightLevel)
    {
      var cs := msgs[i].contexts;
      ghost var press0, height0 := hasPress, hasHeight;
      var j := 0;
      while j < |cs|
        invariant 0 <= j <= |cs|
        invariant hasPress == press0 + CountIf(cs[..j], PressureLevel, HasB08042)
        invariant hasHeight == height0 + CountIf(cs[..j], HeightLevel, HasB08042)
      {
        assert cs[..j + 1][..j] == cs[..j];
        var lt := cs[j].level.ltype1;
        if lt == 100 {
          hasPress := hasPress + 1;
        } else if lt == 102 {
          hasHeight := hasHeight + 1;
        } else if lt == 103 {
          hasHeight := hasHeight + 1;
        }
        j := j + 1;
      }
      assert cs[..j] == cs;
      assert msgs[..i + 1][..i] == msgs[..i];
      i := i + 1;
    }
    assert msgs[..i] == msgs;
  }

  /** A TEMP or PILOT template over a set of messages. */
  class TempTemplate {
    const variant: TempVariant
    const base: Template
    var isCrex: bool
    var pressureLevs: bool

    constructor (variant: TempVariant, opts: ExporterOptions, msgs: seq<Msg>)
      ensures this.variant == variant && base.name == TempName(variant)
      ensures base.opts == opts && base.msgs == msgs && fresh(base)
    {
      this.variant := variant;
      base := new Template(TempName(variant), opts, msgs);
      isCrex := false;
      pressureLevs := true;
    }

    /**
     * `setupBulletin`: the common header, the old master table 13 for
     * BUFR, then the category, subcategories and descriptors of the
     * template.
     */
    method SetupBulletin(b: OutBulletin, now: Tm, hasIdent: Msg -> bool, hasBlock: Msg -> bool)
      requires |base.msgs| > 0
      modifies b, `isCrex
      ensures b.Reference() == ReferenceTime(base.msgs[0].date, now)
      ensures b.encoding == BUFR ==> b.masterTable == 13 && b.edition == 4
      ensures b.encoding == CREX ==> b.masterTable == 0 && b.edition == 2
      ensures isCrex <==> b.encoding == CREX
      ensures b.Chosen() ==
        TempHeader(variant, LocalSubcategory(base.msgs, hasIdent, hasBlock), AnyShip(base.msgs), pressureLevs, isCrex)
      ensures b.subsets == old(b.subsets)
    {
      base.SetupBulletin(b, now);
      if b.encoding == BUFR {
        b.SetMasterTable(13);
      }
      isCrex := b.encoding == CREX;
      var local := ChooseLocalSubcategory(base.msgs, hasIdent, hasBlock);
      var shipSubtype := WmoSubcategory(base.msgs);
      b.SetChosen(TempHeader(variant, local, shipSubtype == 5, pressureLevs, isCrex));
    }

    /** The replicated groups of `to_subset` for one message. */
    method ToSubset(m: Msg, s: SubsetBuffer, hasVsig: Context -> bool)
      modifies s
      ensures s.items == old(s.items) + Replications(variant, pressureLevs, m.contexts, hasVsig)
    {
      var cs := m.contexts;
      match variant {
        case TempWmo =>
          s.AppendReplicated(cs, WmoSounding, hasVsig);
          s.AppendReplicated(cs, WmoWindShear, hasVsig);
        case TempRadar =>
          s.AppendReplicated(cs, RadarHeight, hasVsig);
        case TempEcmwfLand =>
          var _ := s.AddSoundingLevels(cs, hasVsig);
        case TempEcmwfShip =>
          var _ := s.AddSoundingLevels(cs, hasVsig);
        case PilotWmo =>
          s.AppendReplicated(cs, PilotSounding(pressureLevs), hasVsig);
          s.AppendReplicated(cs, PilotWindShear(pressureLevs), hasVsig);
        case PilotEcmwf =>
          s.AppendReplicated(cs, Sounding, hasVsig);
      }
    }

    /**
     * `to_bulletin`: `PilotWMO` first votes between pressure and height
     * levels; then the header, and one subset per message.
     */
    method ToBulletin(b: OutBulletin, now: Tm, hasIdent: Msg -> bool, hasBlock: Msg -> bool)
      requires |base.msgs| > 0 && b.subsets == []
      modifies b, `isCrex, `pressureLevs
      ensures variant == PilotWmo ==> pressureLevs == PressureVote(base.msgs)
      ensures variant != PilotWmo ==> pressureLevs == old(pressureLevs)
      ensures b.Reference() == ReferenceTime(base.msgs[0].date, now)
      ensures b.Chosen() ==
        TempHeader(variant, LocalSubcategory(base.msgs, hasIdent, hasBlock), AnyShip(base.msgs), pressureLevs, isCrex)
      ensures |b.subsets| == |base.msgs|
      ensures forall i :: 0 <= i < |base.msgs| ==> b.subsets[i] == [Encoded(base.name, base.msgs[i])]
    {
      if variant == PilotWmo {
        var hasPress, hasHeight := CountLevelTypes(base.msgs);
        pressureLevs := hasPress >= hasHeight;
      }
      SetupBulletin(b, now, hasIdent, hasBlock);
      var msgs := base.msgs;
      ghost var levs, crex := pressureLevs, isCrex;
      var i := 0;
      while i < |msgs|
        invariant 0 <= i <= |msgs|
        invariant pressureLevs == levs && isCrex == crex
        invariant b.Reference() == ReferenceTime(msgs[0].date, now)
        invariant b.Chosen() ==
          TempHeader(variant, LocalSubcategory(msgs, hasIdent, hasBlock), AnyShip(msgs), pressureLevs, isCrex)
        invariant |b.subsets| == i
        invariant forall j :: 0 <= j < i ==> b.subsets[j] == [Encoded(base.name, msgs[j])]
      {
        b.AddToSubset(i, Encoded(base.name, msgs[i]));
        i := i + 1;
      }
    }
  }

  // ------------------------------------------------------------ factories

  /** The surface level `Level(1)`. */
  function Surface(): Level
  {
    Level(1, MISSING_INT, MISSING_INT, MISSING_INT)
  }

  /** The message says its equipment is a radar: B02003 at the surface, instant, reads 3 (0 when unset). */
  predicate IsRadar(m: Msg)
    ensures IsRadar(m) ==> Find(m, WrVar(0, 2, 3), Surface(), Instant()).Some?
    ensures IsRadar(m) ==> Find(m, WrVar(0, 2, 3), Surface(), Instant()).value.value == Some(3)
  {
    var v := Find(m, WrVar(0, 2, 3), Surface(), Instant());
    v.Some? && v.value.value.GetOr(0) == 3
  }

  /** The "temp-ecmwf" factory: ship when the first message is a ship sounding, land otherwise and for no messages. */
  function TempEcmwfMake(msgs: seq<Msg>): (v: TempVariant)
    ensures v == TempEcmwfShip <==> |msgs| > 0 && msgs[0].msgType == TempShip
    ensures v == TempEcmwfLand || v == TempEcmwfShip
  {
    if |msgs| == 0 || msgs[0].msgType != TempShip then TempEcmwfLand else TempEcmwfShip
  }

  /**
   * The "temp" factory: a radar profile first; then the WMO template for
   * more than 260 contexts, which ECMWF replication cannot hold, or when
   * sonde tracking is reported; the ECMWF choice otherwise.
   */
  function TempMake(msgs: seq<Msg>, hasSondeTracking: bool): (v: TempVariant)
    requires |msgs| > 0
    ensures v == TempRadar <==> IsRadar(msgs[0])
    ensures v == TempWmo <==> !IsRadar(msgs[0]) && (|msgs[0].contexts| > 260 || hasSondeTracking)
    ensures !IsRadar(msgs[0]) && |msgs[0].contexts| <= 260 && !hasSondeTracking ==> v == TempEcmwfMake(msgs)
  {
    if IsRadar(msgs[0]) then TempRadar
    else if |msgs[0].contexts| > 260 then TempWmo
    else if hasSondeTracking then TempWmo
    else TempEcmwfMake(msgs)
  }

  /** The "pilot" factory: the WMO template when sonde tracking or the equipment type is reported. */
  function PilotMake(hasSondeTracking: bool, hasEquipType: bool): (v: TempVariant)
    ensures v == PilotWmo <==> hasSondeTracking || hasEquipType
    ensures v == PilotWmo || v == PilotEcmwf
  {
    if hasSondeTracking || hasEquipType then PilotWmo else PilotEcmwf
  }

  /** The factories `register_temp` registers, in order. */
  const TEMP_FACTORIES: seq<TemplateFactory> := [
    TemplateFactory("temp", "Temp (autodetect)"),
    TemplateFactory("temp-ship", "Temp ship (autodetect)"),
    TemplateFactory("temp-wmo", "Temp WMO (2.101)"),
    TemplateFactory("temp-ecmwf", "Temp ECMWF (autodetect)"),
    TemplateFactory("temp-ecmwf-land", "Temp ECMWF land (2.101)"),
    TemplateFactory("temp-ecmwf-ship", "Temp ECMWF ship (2.102)"),
    TemplateFactory("temp-radar", "Temp radar doppler wind profile (6.1)"),
    TemplateFactory("pilot-wmo", "Pilot (2.1, 2.2, 2.3)"),
    TemplateFactory("pilot-ecmwf", "Pilot (2.91)"),
    TemplateFactory("pilot", "pilot (autodetect)")
  ]

  /** `register_temp`: every TEMP and PILOT factory is registered, and a name already taken keeps its factory. */
  method RegisterTemp(r: TemplateRegistry)
    modifies r
    ensures forall f :: f in TEMP_FACTORIES ==> f.name in r.factories
    ensures forall n :: n in old(r.factories) ==> n in r.factories && r.factories[n] == old(r.factories)[n]
    ensures forall n :: n in r.factories && n !in old(r.factories) ==>
      exists f :: f in TEMP_FACTORIES && f.name == n && r.factories[n] == f
  {
    r.RegisterAll(TEMP_FACTORIES);
  }
}
