/** Free-slot parsing and the overlap finder (mcp_tools.py, parse_slots and
    find_overlaps). Each party's calendar is a list of raw rows; a row becomes a
    slot when its end lies strictly after its start, and two slots, one from each
    party, yield a candidate when they strictly overlap. */
module Slots {
  import opened Results
  import opened Time

  /** A calendar row as loaded from a party's table: date, start and end times
      of day, and a zone key. */
  datatype RawSlot = RawSlot(date: string, start: string, end: string, timezone: string)

  /** Why a row could not be read; either one aborts the whole run. */
  datatype SlotError =
    | UnknownZone(zone: string)
    | MalformedTime(text: string)

  /** A free interval between two zone-aware datetimes. */
  datatype Slot = Slot(start: Stamp, end: Stamp)

  /** The date and a time of day joined as "<date> <time>". */
  function StampText(date: string, time: string): (t: string)
    ensures |t| == |date| + 1 + |time|
    ensures t[..|date|] == date && t[|date|] == ' ' && t[|date| + 1..] == time
  {
    date + " " + time
  }

  /** One iteration of the parsing loop: the zone is looked up first, then the
      start text and the end text are read; the row is kept (Some) only when its
      end reads strictly later on the wall clock than its start. Both datetimes
      share one zone, so the comparison is on wall-clock readings. */
  function ParseRow(row: RawSlot, lib: TimeLib): (r: Result<Option<Slot>, SlotError>)
    ensures !lib.zoneExists(row.timezone) ==> r == Err(UnknownZone(row.timezone))
    ensures r.Ok? <==>
      && lib.zoneExists(row.timezone)
      && lib.readWall(StampText(row.date, row.start)).Some?
      && lib.readWall(StampText(row.date, row.end)).Some?
    ensures r.Ok? ==>
      (r.value.Some? <==>
        lib.readWall(StampText(row.date, row.start)).value
          < lib.readWall(StampText(row.date, row.end)).value)
    ensures r.Ok? && r.value.Some? ==>
      && r.value.value.start.Wall() == lib.readWall(StampText(row.date, row.start)).value
      && r.value.value.end.Wall() == lib.readWall(StampText(row.date, row.end)).value
    ensures r.Ok? && r.value.Some? && r.value.value.start.offset == r.value.value.end.offset ==>
      r.value.value.start.instant < r.value.value.end.instant
  {
    if !lib.zoneExists(row.timezone) then Err(UnknownZone(row.timezone))
    else
      var startText := StampText(row.date, row.start);
      var endText := StampText(row.date, row.end);
      match lib.readWall(startText)
      case None => Err(MalformedTime(startText))
      case Some(startWall) =>
        match lib.readWall(endText)
        case None => Err(MalformedTime(endText))
        case Some(endWall) =>
          if endWall > startWall then
            Ok(Some(Slot(Localize(lib, row.timezone, startWall), Localize(lib, row.timezone, endWall))))
          else
            Ok(None)
  }

  /** All kept slots of a calendar, in row order; the first unreadable row aborts. */
  function ParseSlots(rows: seq<RawSlot>, lib: TimeLib): (r: Result<seq<Slot>, SlotError>)
    ensures r.Ok? <==> forall i :: 0 <= i < |rows| ==> ParseRow(rows[i], lib).Ok?
    ensures r.Ok? ==> |r.value| <= |rows|
    ensures r.Ok? ==> forall k :: 0 <= k < |r.value| ==> r.value[k].start.Wall() < r.value[k].end.Wall()
  {
    if |rows| == 0 then Ok([])
    else
      match ParseRow(rows[0], lib)
      case Err(e) => Err(e)
      case Ok(kept) =>
        match ParseSlots(rows[1..], lib)
        case Err(e) => Err(e)
        case Ok(rest) => Ok((if kept.Some? then [kept.value] else []) + rest)
  }

  /** Parsing is a left-to-right scan: an error comes from the first row that
      cannot be read. */
  lemma {:induction false} ParseSlotsFirstError(rows: seq<RawSlot>, lib: TimeLib)
    requires ParseSlots(rows, lib).Err?
    ensures exists i :: (0 <= i < |rows|
      && ParseRow(rows[i], lib) == Err(ParseSlots(rows, lib).error)
      && forall j :: 0 <= j < i ==> ParseRow(rows[j], lib).Ok?)
  {
    if ParseRow(rows[0], lib).Err? {
      assert ParseRow(rows[0], lib) == Err(ParseSlots(rows, lib).error);
    } else {
      ParseSlotsFirstError(rows[1..], lib);
      var i :| 0 <= i < |rows[1..]|
        && ParseRow(rows[1..][i], lib) == Err(ParseSlots(rows[1..], lib).error)
        && forall j :: 0 <= j < i ==> ParseRow(rows[1..][j], lib).Ok?;
      assert ParseRow(rows[i + 1], lib) == Err(ParseSlots(rows, lib).error);
      forall j | 0 <= j < i + 1
        ensures ParseRow(rows[j], lib).Ok?
      {
        if j > 0 {
          assert rows[j] == rows[1..][j - 1];
        }
      }
    }
  }

  /** Parsing preserves row order: the slots of a concatenation are the slots of
      each part, one after the other, and an error in the first part wins. */
  lemma {:induction false} ParseSlotsAppend(a: seq<RawSlot>, b: seq<RawSlot>, lib: TimeLib)
    ensures ParseSlots(a + b, lib) ==
      match ParseSlots(a, lib)
      case Err(e) => Err(e)
      case Ok(x) =>
        match ParseSlots(b, lib)
        case Err(e) => Err(e)
        case Ok(y) => Ok(x + y)
  {
    if |a| == 0 {
      assert a + b == b;
      match ParseSlots(b, lib)
      case Err(e) =>
      case Ok(y) => assert [] + y == y;
    } else {
      assert (a + b)[0] == a[0];
      assert (a + b)[1..] == a[1..] + b;
      ParseSlotsAppend(a[1..], b, lib);
      match ParseRow(a[0], lib)
      case Err(e) =>
      case Ok(kept) =>
        match ParseSlots(a[1..], lib)
        case Err(e) =>
        case Ok(x) =>
          match ParseSlots(b, lib)
          case Err(e) =>
          case Ok(y) =>
            var head := if kept.Some? then [kept.value] else [];
            assert head + (x + y) == (head + x) + y;
    }
  }

  /** A single row yields its slot when kept and nothing when dropped. */
  lemma ParseSlotsSingle(row: RawSlot, lib: TimeLib)
    ensures ParseRow(row, lib).Ok? && ParseRow(row, lib).value.Some? ==>
      ParseSlots([row], lib) == Ok([ParseRow(row, lib).value.value])
    ensures ParseRow(row, lib) == Ok(None) ==> ParseSlots([row], lib) == Ok([])
    ensures ParseRow(row, lib).Err? ==> ParseSlots([row], lib) == Err(ParseRow(row, lib).error)
  {
    assert [row][1..] == [];
    assert ParseSlots([row][1..], lib) == Ok([]);
    if ParseRow(row, lib).Ok? && ParseRow(row, lib).value.Some? {
      var slot := ParseRow(row, lib).value.value;
      assert [slot] + [] == [slot];
    }
  }

  // ---------------------------------------------------------------------------
  // Overlap finder
  // ---------------------------------------------------------------------------

  /** The later of two datetimes by instant; on a tie the first one is returned. */
  function Later(a: Stamp, b: Stamp): (r: Stamp)
    ensures r == a || r == b
    ensures a.instant <= r.instant && b.instant <= r.instant
    ensures a.instant == b.instant ==> r == a
  {
    if b.instant > a.instant then b else a
  }

  /** The earlier of two datetimes by instant; on a tie the first one is returned. */
  function Earlier(a: Stamp, b: Stamp): (r: Stamp)
    ensures r == a || r == b
    ensures r.instant <= a.instant && r.instant <= b.instant
    ensures a.instant == b.instant ==> r == a
  {
    if b.instant < a.instant then b else a
  }

  /** The intersection of two slots: from the later start to the earlier end. */
  function Meet(c: Slot, g: Slot): (m: Slot)
    ensures c.start.instant <= m.start.instant && g.start.instant <= m.start.instant
    ensures m.end.instant <= c.end.instant && m.end.instant <= g.end.instant
    ensures m.start == c.start || m.start == g.start
    ensures m.end == c.end || m.end == g.end
  {
    Slot(Later(c.start, g.start), Earlier(c.end, g.end))
  }

  /** Instant `t` lies in the half-open slot `s`. */
  predicate Covers(s: Slot, t: int) {
    s.start.instant <= t < s.end.instant
  }

  /** Two slots overlap when their intersection is non-empty; touching ends do not count. */
  predicate Meets(c: Slot, g: Slot) {
    Meet(c, g).start.instant < Meet(c, g).end.instant
  }

  /** The overlap test is exactly "some instant lies in both half-open slots". */
  lemma MeetsIffSharedInstant(c: Slot, g: Slot)
    ensures Meets(c, g) <==>
      exists t :: Covers(c, t) && Covers(g, t)
  {
    if Meets(c, g) {
      var t := Meet(c, g).start.instant;
      assert Covers(c, t) && Covers(g, t);
    }
  }

  /** Slots that only touch, one ending exactly when the other starts, yield nothing. */
  lemma TouchingSlotsDoNotMeet(c: Slot, g: Slot)
    requires c.end.instant == g.start.instant || g.end.instant == c.start.instant
    ensures !Meets(c, g)
  {
  }

  /** The overlaps of one slot `c` with each slot of `gs`, in the order of `gs`. */
  function Row(c: Slot, gs: seq<Slot>): (r: seq<Slot>)
    ensures |r| <= |gs|
  {
    if |gs| == 0 then []
    else (if Meets(c, gs[0]) then [Meet(c, gs[0])] else []) + Row(c, gs[1..])
  }

  /** Every strict intersection of a slot of `cs` with a slot of `gs`, the slots
      of `cs` in the outer loop and those of `gs` in the inner one. */
  function Overlaps(cs: seq<Slot>, gs: seq<Slot>): (r: seq<Slot>)
    ensures |gs| == 0 ==> r == []
  {
    if |cs| == 0 then []
    else Row(cs[0], gs) + Overlaps(cs[1..], gs)
  }

  /** Calendars with no strictly overlapping pair have no overlaps at all. */
  lemma {:induction false} NoMeetingPairNoOverlaps(cs: seq<Slot>, gs: seq<Slot>)
    requires forall i, j :: 0 <= i < |cs| && 0 <= j < |gs| ==> !Meets(cs[i], gs[j])
    ensures Overlaps(cs, gs) == []
  {
    if |cs| > 0 {
      NoMeetingRow(cs[0], gs);
      NoMeetingPairNoOverlaps(cs[1..], gs);
    }
  }

  lemma {:induction false} NoMeetingRow(c: Slot, gs: seq<Slot>)
    requires forall j :: 0 <= j < |gs| ==> !Meets(c, gs[j])
    ensures Row(c, gs) == []
  {
    if |gs| > 0 {
      NoMeetingRow(c, gs[1..]);
    }
  }

  /** At most one overlap per pair of slots. */
  lemma {:induction false} OverlapsCount(cs: seq<Slot>, gs: seq<Slot>)
    ensures |Overlaps(cs, gs)| <= |cs| * |gs|
  {
    if |cs| > 0 {
      OverlapsCount(cs[1..], gs);
      assert |cs| * |gs| == |gs| + (|cs| - 1) * |gs|;
    }
  }

  /** find_overlaps: parse the first party's rows, then the second's, and
      intersect the two calendars. */
  function FindOverlaps(rawC: seq<RawSlot>, rawG: seq<RawSlot>, lib: TimeLib): (r: Result<seq<Slot>, SlotError>)
    ensures r.Ok? <==> ParseSlots(rawC, lib).Ok? && ParseSlots(rawG, lib).Ok?
    ensures ParseSlots(rawC, lib).Err? ==> r == Err(ParseSlots(rawC, lib).error)
    ensures r.Ok? ==> |r.value| <= |ParseSlots(rawC, lib).value| * |ParseSlots(rawG, lib).value|
  {
    match ParseSlots(rawC, lib)
    case Err(e) => Err(e)
    case Ok(cs) =>
      match ParseSlots(rawG, lib)
      case Err(e) => Err(e)
      case Ok(gs) =>
        OverlapsCount(cs, gs);
        Ok(Overlaps(cs, gs))
  }

  /** Every overlap comes from a pair of slots, one per party, that strictly
      overlap, and lies inside both of them. */
  lemma {:induction false} OverlapsSound(cs: seq<Slot>, gs: seq<Slot>, k: int) returns (i: int, j: int)
    requires 0 <= k < |Overlaps(cs, gs)|
    ensures 0 <= i < |cs| && 0 <= j < |gs|
    ensures Meets(cs[i], gs[j]) && Overlaps(cs, gs)[k] == Meet(cs[i], gs[j])
  {
    var row := Row(cs[0], gs);
    assert Overlaps(cs, gs) == row + Overlaps(cs[1..], gs);
    if k < |row| {
      i := 0;
      j := RowSound(cs[0], gs, k);
    } else {
      var i', j' := OverlapsSound(cs[1..], gs, k - |row|);
      i, j := i' + 1, j';
      assert cs[1..][i'] == cs[i];
    }
  }

  lemma {:induction false} RowSound(c: Slot, gs: seq<Slot>, k: int) returns (j: int)
    requires 0 <= k < |Row(c, gs)|
    ensures 0 <= j < |gs| && Meets(c, gs[j]) && Row(c, gs)[k] == Meet(c, gs[j])
  {
    if Meets(c, gs[0]) && k == 0 {
      j := 0;
    } else {
      var head := if Meets(c, gs[0]) then 1 else 0;
      var j' := RowSound(c, gs[1..], k - head);
      j := j' + 1;
    }
  }

  /** Every emitted overlap is non-empty and lies inside a slot of each party. */
  lemma OverlapsStrict(cs: seq<Slot>, gs: seq<Slot>, k: int)
    requires 0 <= k < |Overlaps(cs, gs)|
    ensures Overlaps(cs, gs)[k].start.instant < Overlaps(cs, gs)[k].end.instant
    ensures exists i, j :: (0 <= i < |cs| && 0 <= j < |gs|
      && Covers(cs[i], Overlaps(cs, gs)[k].start.instant) && Overlaps(cs, gs)[k].end.instant <= cs[i].end.instant
      && Covers(gs[j], Overlaps(cs, gs)[k].start.instant) && Overlaps(cs, gs)[k].end.instant <= gs[j].end.instant)
  {
    var i, j := OverlapsSound(cs, gs, k);
    assert Covers(cs[i], Overlaps(cs, gs)[k].start.instant);
  }

  /** Every pair of strictly overlapping slots contributes its intersection. */
  lemma {:induction false} OverlapsComplete(cs: seq<Slot>, gs: seq<Slot>, i: int, j: int)
    requires 0 <= i < |cs| && 0 <= j < |gs| && Meets(cs[i], gs[j])
    ensures Meet(cs[i], gs[j]) in Overlaps(cs, gs)
  {
    if i == 0 {
      RowComplete(cs[0], gs, j);
    } else {
      OverlapsComplete(cs[1..], gs, i - 1, j);
    }
  }

  lemma {:induction false} RowComplete(c: Slot, gs: seq<Slot>, j: int)
    requires 0 <= j < |gs| && Meets(c, gs[j])
    ensures Meet(c, gs[j]) in Row(c, gs)
  {
    if j > 0 {
      RowComplete(c, gs[1..], j - 1);
    }
  }

  /** Output order, first half: the first party's slots form the outer loop. */
  lemma {:induction false} OverlapsAppendOuter(cs1: seq<Slot>, cs2: seq<Slot>, gs: seq<Slot>)
    ensures Overlaps(cs1 + cs2, gs) == Overlaps(cs1, gs) + Overlaps(cs2, gs)
  {
    if |cs1| == 0 {
      assert cs1 + cs2 == cs2;
    } else {
      assert (cs1 + cs2)[0] == cs1[0];
      assert (cs1 + cs2)[1..] == cs1[1..] + cs2;
      OverlapsAppendOuter(cs1[1..], cs2, gs);
    }
  }

  /** Output order, second half: for one slot of the first party, the second
      party's slots are visited in their own order. */
  lemma {:induction false} OverlapsAppendInner(c: Slot, gs1: seq<Slot>, gs2: seq<Slot>)
    ensures Overlaps([c], gs1 + gs2) == Overlaps([c], gs1) + Overlaps([c], gs2)
  {
    RowAppend(c, gs1, gs2);
    assert [c][1..] == [];
  }

  lemma {:induction false} RowAppend(c: Slot, gs1: seq<Slot>, gs2: seq<Slot>)
    ensures Row(c, gs1 + gs2) == Row(c, gs1) + Row(c, gs2)
  {
    if |gs1| == 0 {
      assert gs1 + gs2 == gs2;
    } else {
      assert (gs1 + gs2)[0] == gs1[0];
      assert (gs1 + gs2)[1..] == gs1[1..] + gs2;
      RowAppend(c, gs1[1..], gs2);
    }
  }

  /** A single pair yields its intersection exactly when the two overlap. */
  lemma OverlapsOfPair(c: Slot, g: Slot)
    ensures Overlaps([c], [g]) == if Meets(c, g) then [Meet(c, g)] else []
  {
    assert [c][1..] == [];
    assert [g][1..] == [];
  }

  // ---------------------------------------------------------------------------
  // Swapping the two parties
  // ---------------------------------------------------------------------------

  /** The instants a slot spans, forgetting the zones its ends are expressed in. */
  function Span(s: Slot): (int, int) {
    (s.start.instant, s.end.instant)
  }

  /** The spans of a list of slots, as a multiset. */
  function SpanBag(s: seq<Slot>): multiset<(int, int)> {
    if |s| == 0 then multiset{} else multiset{Span(s[0])} + SpanBag(s[1..])
  }

  lemma {:induction false} SpanBagAppend(a: seq<Slot>, b: seq<Slot>)
    ensures SpanBag(a + b) == SpanBag(a) + SpanBag(b)
  {
    if |a| == 0 {
      assert a + b == b;
    } else {
      assert (a + b)[0] == a[0];
      assert (a + b)[1..] == a[1..] + b;
      SpanBagAppend(a[1..], b);
    }
  }

  /** The overlap of a pair spans the same instants whichever party comes first. */
  lemma MeetSymmetric(c: Slot, g: Slot)
    ensures Meets(c, g) == Meets(g, c)
    ensures Span(Meet(c, g)) == Span(Meet(g, c))
  {
  }

  function Pair(c: Slot, g: Slot): seq<Slot> {
    if Meets(c, g) then [Meet(c, g)] else []
  }

  lemma PairSymmetric(c: Slot, g: Slot)
    ensures SpanBag(Pair(g, c)) == SpanBag(Pair(c, g))
  {
    MeetSymmetric(c, g);
    if Meets(c, g) {
      assert SpanBag([Meet(c, g)]) == multiset{Span(Meet(c, g))} + SpanBag([]);
      assert SpanBag([Meet(g, c)]) == multiset{Span(Meet(g, c))} + SpanBag([]);
    }
  }

  lemma {:induction false} OverlapsWithNothing(gs: seq<Slot>)
    ensures Overlaps(gs, []) == []
  {
    if |gs| > 0 {
      OverlapsWithNothing(gs[1..]);
    }
  }

  /** Taking slot `c` off the front of the inner list splits off one column. */
  lemma {:induction false} PeelColumn(gs: seq<Slot>, c: Slot, cs: seq<Slot>)
    ensures SpanBag(Overlaps(gs, [c] + cs)) == SpanBag(Row(c, gs)) + SpanBag(Overlaps(gs, cs))
  {
    if |gs| > 0 {
      var g := gs[0];
      var pairGC, pairCG := SpanBag(Pair(g, c)), SpanBag(Pair(c, g));
      var rowG, rowC := SpanBag(Row(g, cs)), SpanBag(Row(c, gs[1..]));
      var rest := SpanBag(Overlaps(gs[1..], cs));
      assert SpanBag(Overlaps(gs, [c] + cs)) == pairGC + rowG + (rowC + rest) by {
        assert ([c] + cs)[0] == c && ([c] + cs)[1..] == cs;
        assert Row(g, [c] + cs) == Pair(g, c) + Row(g, cs);
        SpanBagAppend(Row(g, [c] + cs), Overlaps(gs[1..], [c] + cs));
        SpanBagAppend(Pair(g, c), Row(g, cs));
        PeelColumn(gs[1..], c, cs);
      }
      assert SpanBag(Row(c, gs)) + SpanBag(Overlaps(gs, cs)) == pairCG + rowC + (rowG + rest) by {
        assert Row(c, gs) == Pair(c, g) + Row(c, gs[1..]);
        SpanBagAppend(Pair(c, g), Row(c, gs[1..]));
        SpanBagAppend(Row(g, cs), Overlaps(gs[1..], cs));
      }
      PairSymmetric(c, g);
    }
  }

  /** Swapping the two calendars yields the same overlaps, as instant spans and
      counting repetitions; only their order differs. */
  lemma {:induction false} OverlapsSwap(cs: seq<Slot>, gs: seq<Slot>)
    ensures SpanBag(Overlaps(cs, gs)) == SpanBag(Overlaps(gs, cs))
  {
    if |cs| == 0 {
      OverlapsWithNothing(gs);
    } else {
      OverlapsSwap(cs[1..], gs);
      SpanBagAppend(Row(cs[0], gs), Overlaps(cs[1..], gs));
      assert cs == [cs[0]] + cs[1..];
      PeelColumn(gs, cs[0], cs[1..]);
    }
  }
}
