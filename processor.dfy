/**
 * The message selection of the command line tools (`tools/processor.c`):
 * the index filter `match_index`, which accepts a comma-separated list of
 * numbers and inclusive ranges, the category filters of BUFR, CREX and AOF
 * messages, and the numbering of the messages read by `process_all`.
 *
 * Strings are C strings without their terminating NUL: position `|s|` is
 * the terminator, and a read beyond it is out of bounds.
 */
module Processor {
  import opened Wrappers

  // ------------------------------------------------------------ sscanf("%d-%d")

  /** `isspace` in the C locale. */
  predicate IsSpace(c: char)
  {
    c == ' ' || c == '\t' || c == '\n' || c == '\r' || c == '\U{B}' || c == '\U{C}'
  }

  predicate IsDigit(c: char)
  {
    '0' <= c <= '9'
  }

  /** The position after the white space starting at `i`. */
  function SkipSpaces(s: string, i: nat): (j: nat)
    requires i <= |s|
    ensures i <= j <= |s|
    ensures forall k :: i <= k < j ==> IsSpace(s[k])
    ensures j < |s| ==> !IsSpace(s[j])
    decreases |s| - i
  {
    if i < |s| && IsSpace(s[i]) then SkipSpaces(s, i + 1) else i
  }

  /** The position after the digits starting at `i`. */
  function DigitsEnd(s: string, i: nat): (j: nat)
    requires i <= |s|
    ensures i <= j <= |s|
    ensures forall k :: i <= k < j ==> IsDigit(s[k])
    ensures j < |s| ==> !IsDigit(s[j])
    decreases |s| - i
  {
    if i < |s| && IsDigit(s[i]) then DigitsEnd(s, i + 1) else i
  }

  /** The value of a run of decimal digits. */
  function DecimalValue(ds: string): nat
    decreases |ds|
  {
    if ds == [] then 0
    else 10 * DecimalValue(ds[..|ds| - 1]) + (if IsDigit(ds[|ds| - 1]) then ds[|ds| - 1] as int - '0' as int else 0)
  }

  /** A converted integer and the position after it. */
  datatype Scanned = Scanned(value: int, next: nat)

  /**
   * One `%d` conversion from position `i`: white space, an optional sign, and
   * at least one digit. Integers are not bounded (see README).
   */
  function ScanInt(s: string, i: nat): (r: Option<Scanned>)
    requires i <= |s|
    ensures r.Some? ==> i < r.value.next <= |s| && IsDigit(s[r.value.next - 1])
  {
    var j := SkipSpaces(s, i);
    var k := if j < |s| && (s[j] == '-' || s[j] == '+') then j + 1 else j;
    var e := DigitsEnd(s, k);
    if e == k then None
    else
      var v: int := DecimalValue(s[k..e]);
      Some(Scanned(if j < |s| && s[j] == '-' then -v else v, e))
  }

  /** What `sscanf(s, "%d-%d", &start, &end)` finds: nothing, one number, or a range. */
  datatype IndexItem = Unparsable | Single(start: int) | Range(start: int, end: int)

  /** `sscanf` with the format `"%d-%d"`: a number, then a `-` read literally, then a second number. */
  function ScanItem(s: string): (r: IndexItem)
    ensures !r.Unparsable? ==> exists k :: 0 <= k < |s| && IsDigit(s[k])
    ensures r.Range? ==> exists k :: 0 < k < |s| && IsDigit(s[k - 1]) && s[k] == '-'
  {
    match ScanInt(s, 0)
    case None => Unparsable
    case Some(a) =>
      if a.next < |s| && s[a.next] == '-' then
        match ScanInt(s, a.next + 1)
        case None => Single(a.value)
        case Some(b) => Range(a.value, b.value)
      else Single(a.value)
  }

  /** Skipping white space never crosses a character that is not white space. */
  lemma {:induction false} SkipSpacesPrefix(seg: string, t: string, i: nat)
    requires i <= |seg| < |t| && seg == t[..|seg|] && !IsSpace(t[|seg|])
    ensures SkipSpaces(t, i) == SkipSpaces(seg, i)
    decreases |seg| - i
  {
    if i < |seg| && IsSpace(seg[i]) {
      SkipSpacesPrefix(seg, t, i + 1);
    }
  }

  /** Reading digits never crosses a character that is not a digit. */
  lemma {:induction false} DigitsEndPrefix(seg: string, t: string, i: nat)
    requires i <= |seg| < |t| && seg == t[..|seg|] && !IsDigit(t[|seg|])
    ensures DigitsEnd(t, i) == DigitsEnd(seg, i)
    decreases |seg| - i
  {
    if i < |seg| && IsDigit(seg[i]) {
      DigitsEndPrefix(seg, t, i + 1);
    }
  }

  /** A `%d` conversion inside a segment reads the same with the rest of the string after a comma. */
  lemma ScanIntPrefix(seg: string, t: string, i: nat)
    requires i <= |seg| < |t| && seg == t[..|seg|] && t[|seg|] == ','
    ensures ScanInt(t, i) == ScanInt(seg, i)
  {
    SkipSpacesPrefix(seg, t, i);
    var j := SkipSpaces(seg, i);
    assert j < |t| && (t[j] == '-' || t[j] == '+') <==> j < |seg| && (seg[j] == '-' || seg[j] == '+');
    assert j < |t| && t[j] == '-' <==> j < |seg| && seg[j] == '-';
    var k := if j < |seg| && (seg[j] == '-' || seg[j] == '+') then j + 1 else j;
    DigitsEndPrefix(seg, t, k);
    var e := DigitsEnd(seg, k);
    SliceOfPrefix(seg, t, k, e);
    assert DecimalValue(t[k..e]) == DecimalValue(seg[k..e]);
  }

  lemma SliceOfPrefix(seg: string, t: string, k: nat, e: nat)
    requires k <= e <= |seg| <= |t| && seg == t[..|seg|]
    ensures seg[k..e] == t[k..e]
  {
  }

  /**
   * `sscanf` on `expr + pos` stops at the comma closing the segment: what it
   * finds depends only on the segment.
   */
  lemma ScanItemStopsAtComma(seg: string, rest: string)
    ensures ScanItem(seg + [','] + rest) == ScanItem(seg)
  {
    var t := seg + [','] + rest;
    assert t[..|seg|] == seg && t[|seg|] == ',';
    ScanIntPrefix(seg, t, 0);
    match ScanInt(seg, 0)
    case None =>
    case Some(a) =>
      RangeTailPrefix(seg, t, a.next);
  }

  /** After the first number, the `-` and the second number read the same in the segment and in the string. */
  lemma RangeTailPrefix(seg: string, t: string, n: nat)
    requires n <= |seg| < |t| && seg == t[..|seg|] && t[|seg|] == ','
    ensures (n < |t| && t[n] == '-') == (n < |seg| && seg[n] == '-')
    ensures n < |seg| && seg[n] == '-' ==> ScanInt(t, n + 1) == ScanInt(seg, n + 1)
  {
    if n < |seg| {
      assert t[n] == seg[n];
      if seg[n] == '-' {
        ScanIntPrefix(seg, t, n + 1);
      }
    } else {
      assert t[n] == ',';
    }
  }

  // ------------------------------------------------------------ segments

  /** No comma among the first `n` characters. */
  predicate NoComma(s: string, n: nat)
    requires n <= |s|
  {
    forall k :: 0 <= k < n ==> s[k] != ','
  }

  /** `strcspn(s, ",")`: the length of the segment before the first comma. */
  function SegLen(s: string): (n: nat)
    ensures n <= |s|
    decreases |s|
  {
    if s == [] || s[0] == ',' then 0 else 1 + SegLen(s[1..])
  }

  /** The segment holds no comma and ends at a comma or at the end of the string. */
  lemma {:induction false} SegLenStopsAtComma(s: string)
    ensures NoComma(s, SegLen(s))
    ensures SegLen(s) < |s| ==> s[SegLen(s)] == ','
    decreases |s|
  {
    if s != [] && s[0] != ',' {
      SegLenStopsAtComma(s[1..]);
    }
  }

  /** The comma-separated segments of a string. */
  function Split(s: string): (segs: seq<string>)
    ensures |segs| >= 1
    decreases |s|
  {
    var n := SegLen(s);
    if n == |s| then [s] else [s[..n]] + Split(s[n + 1..])
  }

  /** Segments joined back with commas. */
  function Join(segs: seq<string>): string
    requires |segs| >= 1
    decreases |segs|
  {
    if |segs| == 1 then segs[0] else segs[0] + [','] + Join(segs[1..])
  }

  /** Splitting loses nothing, and no segment holds a comma. */
  lemma {:induction false} SplitJoin(s: string)
    ensures Join(Split(s)) == s
    ensures forall i :: 0 <= i < |Split(s)| ==> ',' !in Split(s)[i]
    decreases |s|
  {
    var n := SegLen(s);
    SegLenStopsAtComma(s);
    if n < |s| {
      SplitJoin(s[n + 1..]);
      var segs := Split(s);
      assert segs[1..] == Split(s[n + 1..]);
      assert s == s[..n] + [','] + s[n + 1..];
      forall i | 0 <= i < |segs|
        ensures ',' !in segs[i]
      {
        if i > 0 {
          assert segs[i] == Split(s[n + 1..])[i - 1];
        }
      }
    }
  }

  /** The item of a segment hits `idx`. */
  predicate Hits(idx: int, item: IndexItem)
  {
    match item
    case Unparsable => false
    case Single(a) => a == idx
    case Range(a, b) => a <= idx <= b
  }

  /**
   * `match_index` over the segments: scanning stops, rejecting, at an empty
   * or unparsable segment, and accepts at the first segment that hits.
   * `scan` reads a segment; it is `ScanItem` (see `Wanted`).
   */
  function MatchSegments(idx: int, segs: seq<string>, scan: string -> IndexItem): bool
    decreases |segs|
  {
    if segs == [] || segs[0] == [] then false
    else if scan(segs[0]).Unparsable? then false
    else Hits(idx, scan(segs[0])) || MatchSegments(idx, segs[1..], scan)
  }

  /** Segment `k` decides acceptance: it hits, and every segment before it is non-empty and parsable. */
  predicate Accepting(idx: int, segs: seq<string>, k: int, scan: string -> IndexItem)
  {
    0 <= k < |segs| && segs[k] != [] && Hits(idx, scan(segs[k])) &&
    forall j :: 0 <= j < k ==> segs[j] != [] && !scan(segs[j]).Unparsable?
  }

  /** An index is accepted exactly when some segment hits it before any empty or unparsable one. */
  lemma {:induction false} MatchSegmentsIff(idx: int, segs: seq<string>, scan: string -> IndexItem)
    ensures MatchSegments(idx, segs, scan) <==> exists k :: Accepting(idx, segs, k, scan)
    decreases |segs|
  {
    if segs != [] && segs[0] != [] && !scan(segs[0]).Unparsable? {
      MatchSegmentsIff(idx, segs[1..], scan);
      if Hits(idx, scan(segs[0])) {
        assert Accepting(idx, segs, 0, scan);
      } else {
        if MatchSegments(idx, segs, scan) {
          var k :| Accepting(idx, segs[1..], k, scan);
          assert Accepting(idx, segs, k + 1, scan);
        }
        if exists k :: Accepting(idx, segs, k, scan) {
          var k :| Accepting(idx, segs, k, scan);
          assert k != 0;
          assert Accepting(idx, segs[1..], k - 1, scan);
        }
      }
    }
  }

  /** A scan that never reads past the comma closing its segment. */
  ghost predicate StopsAtComma(scan: string -> IndexItem)
  {
    forall seg, rest :: scan(seg + [','] + rest) == scan(seg)
  }

  /** `sscanf` with `"%d-%d"` is such a scan. */
  lemma ScanItemStopsAtCommaAll()
    ensures StopsAtComma(ScanItem)
  {
    forall seg, rest
      ensures ScanItem(seg + [','] + rest) == ScanItem(seg)
    {
      ScanItemStopsAtComma(seg, rest);
    }
  }

  // ------------------------------------------------------------ match_index

  /** `scan` reads the same from `rest` as from its first segment alone. */
  ghost predicate ReadsOneSegment(scan: string -> IndexItem, rest: string)
  {
    SegLen(rest) < |rest| ==> scan(rest) == scan(rest[..SegLen(rest)])
  }

  /** A scan that stops at commas reads only the first segment of any string. */
  lemma StopsAtCommaOneSegment(scan: string -> IndexItem, rest: string)
    requires StopsAtComma(scan)
    ensures ReadsOneSegment(scan, rest)
  {
    var n := SegLen(rest);
    SegLenStopsAtComma(rest);
    if n < |rest| {
      assert rest == rest[..n] + [','] + rest[n + 1..];
    }
  }

  /**
   * One step of the scan over a string: its first segment decides, or the
   * scan goes on after the comma that closes it.
   */
  lemma MatchStep(idx: int, rest: string, scan: string -> IndexItem)
    requires ReadsOneSegment(scan, rest)
    ensures var n := SegLen(rest);
      MatchSegments(idx, Split(rest), scan) ==
        if n == 0 || scan(rest).Unparsable? then false
        else Hits(idx, scan(rest)) || (n < |rest| && MatchSegments(idx, Split(rest[n + 1..]), scan))
  {
    var n := SegLen(rest);
    var segs := Split(rest);
    SegLenStopsAtComma(rest);
    if n < |rest| {
      assert rest == rest[..n] + [','] + rest[n + 1..];
      assert segs[0] == rest[..n] && segs[1..] == Split(rest[n + 1..]);
    } else {
      assert rest[..n] == rest;
      assert segs == [rest];
    }
  }

  /** `strcspn(expr + pos, ",")`: count the characters before the next comma. */
  method Strcspn(expr: string, pos: nat) returns (len: nat)
    requires pos <= |expr|
    ensures len == SegLen(expr[pos..])
  {
    len := 0;
    while pos + len < |expr| && expr[pos + len] != ','
      invariant pos + len <= |expr|
      invariant NoComma(expr[pos..], len)
    {
      len := len + 1;
    }
    SegLenStopsAtComma(expr[pos..]);
  }

  /** `MatchStep` at position `pos` of a string. */
  lemma MatchStepAt(idx: int, expr: string, pos: nat, scan: string -> IndexItem)
    requires pos <= |expr| && ReadsOneSegment(scan, expr[pos..])
    ensures var n := SegLen(expr[pos..]);
      MatchSegments(idx, Split(expr[pos..]), scan) ==
        if n == 0 || scan(expr[pos..]).Unparsable? then false
        else Hits(idx, scan(expr[pos..])) || (pos + n < |expr| && MatchSegments(idx, Split(expr[pos + n + 1..]), scan))
  {
    MatchStep(idx, expr[pos..], scan);
    var n := SegLen(expr[pos..]);
    if pos + n < |expr| {
      TailAfterSegment(expr, pos, n);
    }
  }

  /** The rest of `expr[pos..]` after its first segment and comma is the rest of `expr` from there. */
  lemma TailAfterSegment(expr: string, pos: nat, n: nat)
    requires pos + n < |expr|
    ensures Split(expr[pos..][n + 1..]) == Split(expr[pos + n + 1..])
  {
    assert expr[pos..][n + 1..] == expr[pos + n + 1..];
  }

  /**
   * The walk of `match_index` from position `pos`, stopped at the end of
   * the string: each segment decides, or the walk goes on after its comma.
   */
  function MatchFrom(idx: int, expr: string, pos: nat, scan: string -> IndexItem): bool
    requires pos <= |expr|
    decreases |expr| - pos
  {
    var len := SegLen(expr[pos..]);
    if len == 0 || scan(expr[pos..]).Unparsable? then false
    else Hits(idx, scan(expr[pos..])) || (pos + len < |expr| && MatchFrom(idx, expr, pos + len + 1, scan))
  }

  /** The walk reaches the verdict of the segment scan. */
  lemma {:induction false} MatchFromSegments(idx: int, expr: string, pos: nat, scan: string -> IndexItem)
    requires StopsAtComma(scan) && pos <= |expr|
    ensures MatchFrom(idx, expr, pos, scan) == MatchSegments(idx, Split(expr[pos..]), scan)
    decreases |expr| - pos
  {
    StopsAtCommaOneSegment(scan, expr[pos..]);
    MatchStepAt(idx, expr, pos, scan);
    var len := SegLen(expr[pos..]);
    if pos + len < |expr| {
      MatchFromSegments(idx, expr, pos + len + 1, scan);
    }
  }

  /**
   * `match_index` as written: after each segment `pos` moves past the comma,
   * and past the terminator after the last one, where the next `strcspn`
   * reads out of bounds; `None` stands for that read.
   */
  function MatchIndexAsWritten(idx: int, expr: string, pos: nat, scan: string -> IndexItem): (r: Option<bool>)
    ensures pos <= |expr| ==> (r == Some(true) <==> MatchFrom(idx, expr, pos, scan))
    ensures pos > |expr| ==> r.None?
    decreases |expr| + 1 - pos
  {
    if pos > |expr| then None
    else
      var len := SegLen(expr[pos..]);
      if len == 0 then Some(false)
      else
        var item := scan(expr[pos..]);
        if item.Unparsable? then Some(false)
        else if Hits(idx, item) then Some(true)
        else MatchIndexAsWritten(idx, expr, pos + len + 1, scan)
  }

  /** "5" does not select message 3, and deciding that reads past the terminator. */
  lemma MatchIndexOverrun()
    ensures MatchIndexAsWritten(3, "5", 0, ScanItem) == None
    ensures !MatchSegments(3, Split("5"), ScanItem)
  {
    var s := "5";
    assert SegLen(s) == 1 by {
      assert s[1..] == [];
    }
    assert DigitsEnd(s, 0) == 1 by {
      assert DigitsEnd(s, 1) == 1;
    }
    assert s[0..1] == s;
    assert DecimalValue(s) == 5 by {
      assert s[..0] == [];
    }
    assert ScanItem(s) == Single(5);
  }

  /** Every verdict the as-written loop reaches is the one of the segment scan. */
  lemma {:induction false} AsWrittenAgrees(idx: int, expr: string, pos: nat, scan: string -> IndexItem)
    requires StopsAtComma(scan)
    requires pos <= |expr| && MatchIndexAsWritten(idx, expr, pos, scan).Some?
    ensures MatchIndexAsWritten(idx, expr, pos, scan).value == MatchSegments(idx, Split(expr[pos..]), scan)
    decreases |expr| + 1 - pos
  {
    var len := SegLen(expr[pos..]);
    StopsAtCommaOneSegment(scan, expr[pos..]);
    MatchStepAt(idx, expr, pos, scan);
    if len > 0 && !scan(expr[pos..]).Unparsable? && !Hits(idx, scan(expr[pos..])) && pos + len + 1 <= |expr| {
      AsWrittenAgrees(idx, expr, pos + len + 1, scan);
    }
  }


  /**
   * `match_index` with the scan stopped at the end of the string: true
   * when a segment hits `idx` before any empty or unparsable one. `scan`
   * is its `sscanf` call, `ScanItem` at the call in `ProcessAll`.
   */
  method MatchIndex(idx: int, expr: string, scan: string -> IndexItem) returns (found: bool)
    requires StopsAtComma(scan)
    ensures found == MatchSegments(idx, Split(expr), scan)
  {
    MatchFromSegments(idx, expr, 0, scan);
    assert expr[0..] == expr;
    var pos := 0;
    while true
      invariant 0 <= pos <= |expr|
      invariant MatchFrom(idx, expr, 0, scan) == MatchFrom(idx, expr, pos, scan)
      decreases |expr| - pos
    {
      var len := Strcspn(expr, pos);
      if len == 0 {
        return false;
      }
      var item := scan(expr[pos..]);
      match item {
        case Single(start) =>
          if start == idx {
            return true;
          }
        case Range(start, end) =>
          if start <= idx && idx <= end {
            return true;
          }
        case Unparsable =>
          return false;
      }
      if pos + len == |expr| {
        return false;
      }
      pos := pos + len + 1;
    }
  }

  // ------------------------------------------------------------ category filters

  /** The filters of the grep tools; -1 leaves a category unfiltered. */
  datatype Grep = Grep(category: int, subcategory: int, index: string)

  /** A message of category `cat` and subcategory `subcat` passes the filter. */
  predicate CategoryMatches(g: Grep, cat: int, subcat: int)
  {
    (g.category == -1 || g.category == cat) && (g.subcategory == -1 || g.subcategory == subcat)
  }

  /** A filter with both categories at -1 passes every message; one set category fixes it. */
  lemma WildcardFilter(g: Grep, cat: int, subcat: int)
    ensures g.category == -1 && g.subcategory == -1 ==> CategoryMatches(g, cat, subcat)
    ensures g.category != -1 && CategoryMatches(g, cat, subcat) ==> cat == g.category
    ensures g.subcategory != -1 && CategoryMatches(g, cat, subcat) ==> subcat == g.subcategory
  {
  }

  /** `match_bufrex`: a mismatch on a set category or subcategory rejects, anything else passes. */
  method MatchBufrex(g: Grep, rtype: int, rsubtype: int) returns (match_: bool)
    ensures match_ == CategoryMatches(g, rtype, rsubtype)
  {
    if g.category != -1 {
      if g.category != rtype {
        return false;
      }
    }
    if g.subcategory != -1 {
      if g.subcategory != rsubtype {
        return false;
      }
    }
    return true;
  }

  /** `match_bufr`: the BUFR filter adds nothing to `match_bufrex`. */
  method MatchBufr(g: Grep, rtype: int, rsubtype: int) returns (match_: bool)
    ensures match_ == CategoryMatches(g, rtype, rsubtype)
  {
    match_ := MatchBufrex(g, rtype, rsubtype);
    if !match_ {
      return;
    }
    match_ := true;
  }

  /** `match_crex`: the check digit filter is compiled out, so CREX adds nothing either. */
  method MatchCrex(g: Grep, rtype: int, rsubtype: int) returns (match_: bool)
    ensures match_ == CategoryMatches(g, rtype, rsubtype)
  {
    match_ := MatchBufrex(g, rtype, rsubtype);
    if !match_ {
      return;
    }
    match_ := true;
  }

  /**
   * `match_aof`: the category comes from `aof_decoder_get_category`, whose
   * answer (or error) is the parameter `decoded`; an error is passed on.
   */
  method MatchAof(g: Grep, decoded: Result<(int, int)>) returns (r: Result<bool>)
    ensures decoded.Err? ==> r == Err(decoded.error)
    ensures decoded.Ok? ==> r == Ok(CategoryMatches(g, decoded.value.0, decoded.value.1))
  {
    if decoded.Err? {
      return Err(decoded.error);
    }
    var (category, subcategory) := decoded.value;
    if g.category != -1 {
      if g.category != category {
        return Ok(false);
      }
    }
    if g.subcategory != -1 {
      if g.subcategory != subcategory {
        return Ok(false);
      }
    }
    return Ok(true);
  }

  // ------------------------------------------------------------ process_all

  /** A message handed to `process_input`, with the index it was given. */
  datatype Handled<M> = Handled(index: int, msg: M)

  /** Message number `n` passes the index filter: no filter, or `match_index` accepts it. */
  predicate Wanted(n: int, index: string)
  {
    index == [] || MatchSegments(n, Split(index), ScanItem)
  }

  /** The test of `process_all`: an empty filter passes every message, otherwise `match_index` decides. */
  method PassesFilter(n: int, index: string) returns (wanted: bool)
    ensures wanted == Wanted(n, index)
  {
    wanted := true;
    if index != [] {
      ScanItemStopsAtCommaAll();
      wanted := MatchIndex(n, index, ScanItem);
    }
  }

  /** The messages `process_all` processes, numbered from 1 in reading order. */
  function Selected<M>(msgs: seq<M>, index: string): seq<Handled<M>>
    decreases |msgs|
  {
    if msgs == [] then []
    else
      Selected(msgs[..|msgs| - 1], index) +
      (if Wanted(|msgs|, index) then [Handled(|msgs|, msgs[|msgs| - 1])] else [])
  }

  /**
   * The processed messages carry their own number, pass the filter, come in
   * increasing order, and include every message that passes it.
   */
  lemma SelectedIsFilter<M>(msgs: seq<M>, index: string)
    ensures forall h :: h in Selected(msgs, index) ==>
      1 <= h.index <= |msgs| && h.msg == msgs[h.index - 1] && Wanted(h.index, index)
    ensures forall n :: 1 <= n <= |msgs| && Wanted(n, index) ==> Handled(n, msgs[n - 1]) in Selected(msgs, index)
    ensures forall i, j :: 0 <= i < j < |Selected(msgs, index)| ==>
      Selected(msgs, index)[i].index < Selected(msgs, index)[j].index
  {
    SelectedSound(msgs, index);
    SelectedComplete(msgs, index);
    SelectedOrdered(msgs, index);
  }

  /** Each processed message carries its own number and passes the filter. */
  lemma {:induction false} SelectedSound<M>(msgs: seq<M>, index: string)
    ensures forall h :: h in Selected(msgs, index) ==>
      1 <= h.index <= |msgs| && h.msg == msgs[h.index - 1] && Wanted(h.index, index)
    decreases |msgs|
  {
    if msgs != [] {
      var init := msgs[..|msgs| - 1];
      SelectedSound(init, index);
      assert forall i :: 0 <= i < |init| ==> init[i] == msgs[i];
    }
  }

  /** Every message that passes the filter is processed. */
  lemma {:induction false} SelectedComplete<M>(msgs: seq<M>, index: string)
    ensures forall n :: 1 <= n <= |msgs| && Wanted(n, index) ==> Handled(n, msgs[n - 1]) in Selected(msgs, index)
    decreases |msgs|
  {
    if msgs != [] {
      var init := msgs[..|msgs| - 1];
      SelectedComplete(init, index);
      assert forall i :: 0 <= i < |init| ==> init[i] == msgs[i];
    }
  }

  /** The processed messages come in increasing order of their numbers. */
  lemma {:induction false} SelectedOrdered<M>(msgs: seq<M>, index: string)
    ensures forall i, j :: 0 <= i < j < |Selected(msgs, index)| ==>
      Selected(msgs, index)[i].index < Selected(msgs, index)[j].index
    decreases |msgs|
  {
    if msgs != [] {
      var init := msgs[..|msgs| - 1];
      SelectedOrdered(init, index);
      SelectedSound(init, index);
    }
  }

  /** Reading one more message hands it on exactly when it passes the filter. */
  lemma SelectedAppend<M>(read: seq<M>, m: M, index: string)
    ensures Selected(read + [m], index) ==
      Selected(read, index) + (if Wanted(|read| + 1, index) then [Handled(|read| + 1, m)] else [])
  {
    assert (read + [m])[..|read|] == read;
  }

  /** `Selected` only grows as more messages are read: what is handed on early stays. */
  lemma {:induction false} SelectedPrefix<M>(a: seq<M>, b: seq<M>, index: string)
    ensures Selected(a, index) <= Selected(a + b, index)
    decreases |b|
  {
    if b == [] {
      assert a + b == a;
    } else {
      var init := b[..|b| - 1];
      SelectedPrefix(a, init, index);
      assert (a + b)[..|a + b| - 1] == a + init;
    }
  }

  /**
   * What `process_all` hands on when `process_input` answers `ok`: every
   * message up to and including the first that fails.
   */
  function UpToFailure<M>(hs: seq<Handled<M>>, ok: Handled<M> -> bool): (r: seq<Handled<M>>)
    ensures r <= hs
    ensures forall i :: 0 <= i < |r| - 1 ==> ok(r[i])
    ensures r != hs ==> r != [] && !ok(r[|r| - 1])
  {
    if hs == [] then []
    else if !ok(hs[0]) then [hs[0]]
    else [hs[0]] + UpToFailure(hs[1..], ok)
  }

  /** After messages that succeed, the first that fails ends the run. */
  lemma {:induction false} UpToFailureAfter<M>(p: seq<Handled<M>>, h: Handled<M>, rest: seq<Handled<M>>, ok: Handled<M> -> bool)
    requires forall i :: 0 <= i < |p| ==> ok(p[i])
    ensures !ok(h) ==> UpToFailure(p + [h] + rest, ok) == p + [h]
    decreases |p|
  {
    if p != [] {
      UpToFailureAfter(p[1..], h, rest, ok);
      assert (p + [h] + rest)[1..] == p[1..] + [h] + rest;
    } else {
      assert p + [h] + rest == [h] + rest;
    }
  }

  /** When every message succeeds, all of them are handed on. */
  lemma {:induction false} UpToFailureAll<M>(hs: seq<Handled<M>>, ok: Handled<M> -> bool)
    requires forall i :: 0 <= i < |hs| ==> ok(hs[i])
    ensures UpToFailure(hs, ok) == hs
    decreases |hs|
  {
    if hs != [] {
      UpToFailureAll(hs[1..], ok);
    }
  }

  /** The messages of all the files, in reading order. */
  function Concat<M>(files: seq<seq<M>>): seq<M>
    decreases |files|
  {
    if files == [] then [] else Concat(files[..|files| - 1]) + files[|files| - 1]
  }

  /**
   * `process_all`: every file in turn, every message in turn, numbered from
   * 1 across all the files; the messages the index filter passes are handed
   * to `process_input`, and the first one that fails ends the run with its
   * error. The contents of the files are given; with no file named, the one
   * file is standard input. `ok` is what `process_input` answers for each
   * message it is handed.
   */
  method ProcessAll<M>(files: seq<seq<M>>, g: Grep, ok: Handled<M> -> bool)
    returns (handled: seq<Handled<M>>, succeeded: bool)
    ensures handled == UpToFailure(Selected(Concat(files), g.index), ok)
    ensures succeeded <==> forall h :: h in Selected(Concat(files), g.index) ==> ok(h)
  {
    handled := [];
    var index := 0;
    var f := 0;
    while f < |files|
      invariant 0 <= f <= |files|
      invariant index == |Concat(files[..f])|
      invariant handled == Selected(Concat(files[..f]), g.index)
      invariant forall i :: 0 <= i < |handled| ==> ok(handled[i])
    {
      var failed;
      handled, index, failed := ProcessFile(files, f, g, ok, handled, index);
      if failed {
        succeeded := false;
        return;
      }
      f := f + 1;
    }
    assert files[..f] == files;
    UpToFailureAll(handled, ok);
    succeeded := true;
  }

  /**
   * The messages of file `f`, read in turn after those of the files before
   * it; `index` and `handled` carry on from them. A failing message stops
   * the run with the answer of the whole of `process_all`.
   */
  method ProcessFile<M>(files: seq<seq<M>>, f: nat, g: Grep, ok: Handled<M> -> bool,
                        handled0: seq<Handled<M>>, index0: int)
    returns (handled: seq<Handled<M>>, index: int, failed: bool)
    requires f < |files| && index0 == |Concat(files[..f])|
    requires handled0 == Selected(Concat(files[..f]), g.index)
    requires forall i :: 0 <= i < |handled0| ==> ok(handled0[i])
    ensures !failed ==> index == |Concat(files[..f + 1])| && handled == Selected(Concat(files[..f + 1]), g.index)
    ensures !failed ==> forall i :: 0 <= i < |handled| ==> ok(handled[i])
    ensures failed ==> handled == UpToFailure(Selected(Concat(files), g.index), ok)
    ensures failed ==> exists h :: h in Selected(Concat(files), g.index) && !ok(h)
  {
    var file := files[f];
    handled, index := handled0, index0;
    ghost var done := Concat(files[..f]);
    ghost var read := done;
    var j := 0;
    while j < |file|
      invariant 0 <= j <= |file|
      invariant read == done + file[..j]
      invariant index == |read|
      invariant handled == Selected(read, g.index)
      invariant forall i :: 0 <= i < |handled| ==> ok(handled[i])
    {
      SelectedAppend(read, file[j], g.index);
      assert read + [file[j]] == done + file[..j + 1];
      read := read + [file[j]];
      index := index + 1;
      var wanted := PassesFilter(index, g.index);
      if wanted {
        var h := Handled(index, file[j]);
        if !ok(h) {
          FailureEndsRun(files, f, j, g.index, handled, h, ok);
          handled := handled + [h];
          return handled, index, true;
        }
        handled := handled + [h];
      }
      j := j + 1;
    }
    assert file[..j] == file;
    assert files[..f + 1][..f] == files[..f];
    failed := false;
  }


  /** A failing message ends the run with the messages handed on so far and itself. */
  lemma FailureEndsRun<M>(files: seq<seq<M>>, f: nat, j: nat, index: string,
                          handled: seq<Handled<M>>, h: Handled<M>, ok: Handled<M> -> bool)
    requires f < |files| && j < |files[f]|
    requires h == Handled(|Concat(files[..f]) + files[f][..j]| + 1, files[f][j]) && !ok(h)
    requires Wanted(h.index, index)
    requires handled == Selected(Concat(files[..f]) + files[f][..j], index)
    requires forall i :: 0 <= i < |handled| ==> ok(handled[i])
    ensures handled + [h] == UpToFailure(Selected(Concat(files), index), ok)
    ensures h in Selected(Concat(files), index)
  {
    var before := Concat(files[..f]) + files[f][..j];
    var rest := ConcatPrefix(files, f, j + 1);
    assert files[f][..j + 1] == files[f][..j] + [files[f][j]];
    assert Concat(files) == before + [files[f][j]] + rest;
    FailureAfter(before, files[f][j], rest, index, handled, h, ok);
  }

  /** A message that fails right after the messages `before` ends the run with them and itself. */
  lemma FailureAfter<M>(before: seq<M>, m: M, rest: seq<M>, index: string,
                        handled: seq<Handled<M>>, h: Handled<M>, ok: Handled<M> -> bool)
    requires h == Handled(|before| + 1, m) && !ok(h) && Wanted(h.index, index)
    requires handled == Selected(before, index)
    requires forall i :: 0 <= i < |handled| ==> ok(handled[i])
    ensures handled + [h] == UpToFailure(Selected(before + [m] + rest, index), ok)
    ensures h in Selected(before + [m] + rest, index)
  {
    SelectedAppend(before, m, index);
    FailureInPrefix(before + [m], rest, index, handled, h, ok);
  }

  /** A failure among the messages selected from a prefix of the input ends the run there. */
  lemma FailureInPrefix<M>(read: seq<M>, rest: seq<M>, index: string,
                           handled: seq<Handled<M>>, h: Handled<M>, ok: Handled<M> -> bool)
    requires Selected(read, index) == handled + [h] && !ok(h)
    requires forall i :: 0 <= i < |handled| ==> ok(handled[i])
    ensures handled + [h] == UpToFailure(Selected(read + rest, index), ok)
    ensures h in Selected(read + rest, index)
  {
    SelectedPrefix(read, rest, index);
    var all := Selected(read + rest, index);
    var tail := all[|handled| + 1..];
    assert all == handled + [h] + tail;
    UpToFailureAfter(handled, h, tail, ok);
  }

  /** What has been read so far is a prefix of all the messages. */
  lemma ConcatPrefix<M>(files: seq<seq<M>>, f: nat, j: nat) returns (rest: seq<M>)
    requires f < |files| && j <= |files[f]|
    ensures Concat(files) == Concat(files[..f]) + files[f][..j] + rest
  {
    ConcatSplit(files, f + 1);
    assert files[..f + 1][..f] == files[..f];
    assert Concat(files[..f + 1]) == Concat(files[..f]) + files[f];
    assert files[f] == files[f][..j] + files[f][j..];
    var more := Concat(files)[|Concat(files[..f + 1])|..];
    rest := files[f][j..] + more;
    assert Concat(files) == Concat(files[..f]) + files[f][..j] + rest;
  }

  /** The messages of the first `f` files come first. */
  lemma {:induction false} ConcatSplit<M>(files: seq<seq<M>>, f: nat)
    requires f <= |files|
    ensures Concat(files[..f]) <= Concat(files)
    decreases |files| - f
  {
    if f < |files| {
      ConcatSplit(files, f + 1);
      assert files[..f + 1][..f] == files[..f];
    } else {
      assert files[..f] == files;
    }
  }
}
