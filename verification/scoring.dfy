/** The seven-criterion slot scorer (mcp_tools.py, score_slot). A candidate's
    start is read on the Indian and on the German wall clock; seven independent
    criteria each add a fixed number of points and, for most branches, one
    explanatory reason, in a fixed order. */
module Scoring {
  import opened Time
  import opened Slots

  /** Accumulated past inconvenience of each team; a larger number is a heavier burden. */
  datatype Burden = Burden(india: int, germany: int)

  /** The burden figures the scheduler ships with. */
  const DefaultBurden := Burden(12, 19)

  /** One explanatory reason per branch that emits one. */
  datatype Reason =
    | IdealHours | OneTeamComfortable | EarlyOrLate
    | FullHour | GoodLength | MinimumLength | TooShort
    | InsideWindow | PartialWindow | OutsideWindow
    | MidWeek | MondayAcceptable | Weekend
    | BalancesGermany | BalancesIndia
    | Soonest
    | AvoidsLunch

  /** The text shown to the user for each reason. */
  function Text(r: Reason): string {
    match r
    case IdealHours => "Ideal working hours for both teams"
    case OneTeamComfortable => "Comfortable for one team"
    case EarlyOrLate => "Early/late meeting for one team"
    case FullHour => "Full 1-hour meeting window"
    case GoodLength => "Good 45-minute slot"
    case MinimumLength => "Minimum acceptable slot length"
    case TooShort => "Too short slot"
    case InsideWindow => "Inside preferred meeting window"
    case PartialWindow => "Partial preference match"
    case OutsideWindow => "Outside preference window"
    case MidWeek => "Mid-week meetings preferred"
    case MondayAcceptable => "Monday acceptable"
    case Weekend => "Weekend is not recommended"
    case BalancesGermany => "Balances past inconvenience for Germany"
    case BalancesIndia => "Balances past inconvenience for India"
    case Soonest => "Soonest available slot"
    case AvoidsLunch => "Avoids lunch hour"
  }

  /** Which of the seven criteria (numbered 1 to 7) emits a reason. */
  function Criterion(r: Reason): int {
    match r
    case IdealHours | OneTeamComfortable | EarlyOrLate => 1
    case FullHour | GoodLength | MinimumLength | TooShort => 2
    case InsideWindow | PartialWindow | OutsideWindow => 3
    case MidWeek | MondayAcceptable | Weekend => 4
    case BalancesGermany | BalancesIndia => 5
    case Soonest => 6
    case AvoidsLunch => 7
  }

  /** The points that accompany each reason. */
  function Weight(r: Reason): int {
    match r
    case IdealHours => 15
    case OneTeamComfortable => 8
    case EarlyOrLate => -10
    case FullHour => 10
    case GoodLength => 7
    case MinimumLength => 4
    case TooShort => -5
    case InsideWindow => 12
    case PartialWindow => 7
    case OutsideWindow => -8
    case MidWeek => 5
    case MondayAcceptable => 2
    case Weekend => -20
    case BalancesGermany => 20
    case BalancesIndia => 20
    case Soonest => 6
    case AvoidsLunch => 3
  }

  function TotalWeight(rs: seq<Reason>): int {
    if |rs| == 0 then 0 else Weight(rs[0]) + TotalWeight(rs[1..])
  }

  lemma {:induction false} TotalWeightAppend(a: seq<Reason>, b: seq<Reason>)
    ensures TotalWeight(a + b) == TotalWeight(a) + TotalWeight(b)
  {
    if |a| == 0 {
      assert a + b == b;
    } else {
      assert (a + b)[0] == a[0];
      assert (a + b)[1..] == a[1..] + b;
      TotalWeightAppend(a[1..], b);
    }
  }

  /** One criterion's contribution: its points and the reasons it appends. */
  datatype Part = Part(points: int, reasons: seq<Reason>)

  predicate Within(h: int, lo: int, hi: int) {
    lo <= h < hi
  }

  /** Criterion 1: comfortable working hours (10-17 in India, 9-16 in Germany). */
  function WorkingHours(istHour: int, berlinHour: int): (p: Part)
    ensures |p.reasons| == 1 && Criterion(p.reasons[0]) == 1 && p.points == Weight(p.reasons[0])
    ensures p.points == TotalWeight(p.reasons)
    ensures p.points == 15 <==> Within(istHour, 10, 17) && Within(berlinHour, 9, 16)
    ensures p.points == -10 <==> !Within(istHour, 10, 17) && !Within(berlinHour, 9, 16)
    ensures p.points == 15 || p.points == 8 || p.points == -10
  {
    if Within(istHour, 10, 17) && Within(berlinHour, 9, 16) then Part(15, [IdealHours])
    else if Within(istHour, 10, 17) || Within(berlinHour, 9, 16) then Part(8, [OneTeamComfortable])
    else Part(-10, [EarlyOrLate])
  }

  /** Criterion 2: slot length. `seconds` is the seconds part of the slot's
      length; the thresholds 60, 45 and 30 minutes are compared in seconds. */
  function SlotLength(seconds: int): (p: Part)
    ensures |p.reasons| == 1 && Criterion(p.reasons[0]) == 2 && p.points == Weight(p.reasons[0])
    ensures p.points == TotalWeight(p.reasons)
    ensures p.points == 10 <==> seconds >= 60 * SecondsPerMinute
    ensures p.points == -5 <==> seconds < 30 * SecondsPerMinute
    ensures 45 * SecondsPerMinute <= seconds < 60 * SecondsPerMinute ==> p == Part(7, [GoodLength])
    ensures 30 * SecondsPerMinute <= seconds < 45 * SecondsPerMinute ==> p == Part(4, [MinimumLength])
    ensures -5 <= p.points <= 10
  {
    if seconds >= 60 * SecondsPerMinute then Part(10, [FullHour])
    else if seconds >= 45 * SecondsPerMinute then Part(7, [GoodLength])
    else if seconds >= 30 * SecondsPerMinute then Part(4, [MinimumLength])
    else Part(-5, [TooShort])
  }

  /** Slot length is monotone: a longer slot never earns fewer length points. */
  lemma SlotLengthMonotone(s1: int, s2: int)
    requires s1 <= s2
    ensures SlotLength(s1).points <= SlotLength(s2).points
  {
  }

  /** Criterion 3: preferred window (11-16 in India, 10-15 in Germany). */
  function PreferredWindow(istHour: int, berlinHour: int): (p: Part)
    ensures |p.reasons| == 1 && Criterion(p.reasons[0]) == 3 && p.points == Weight(p.reasons[0])
    ensures p.points == TotalWeight(p.reasons)
    ensures p.points == 12 <==> Within(istHour, 11, 16) && Within(berlinHour, 10, 15)
    ensures p.points == -8 <==> !Within(istHour, 11, 16) && !Within(berlinHour, 10, 15)
    ensures p.points == 12 || p.points == 7 || p.points == -8
  {
    if Within(istHour, 11, 16) && Within(berlinHour, 10, 15) then Part(12, [InsideWindow])
    else if Within(istHour, 11, 16) || Within(berlinHour, 10, 15) then Part(7, [PartialWindow])
    else Part(-8, [OutsideWindow])
  }

  /** Criterion 4: day of the week on the Indian calendar, Monday = 0. */
  function DayOfWeek(weekday: int): (p: Part)
    ensures |p.reasons| <= 1 && p.points == TotalWeight(p.reasons)
    ensures forall r :: r in p.reasons ==> Criterion(r) == 4
    ensures p.reasons == [] <==> weekday == 4
    ensures 1 <= weekday <= 3 ==> p == Part(5, [MidWeek])
    ensures weekday == 0 ==> p == Part(2, [MondayAcceptable])
    ensures weekday == 5 || weekday == 6 ==> p == Part(-20, [Weekend])
    ensures weekday == 4 ==> p.points == 0
    ensures p.points < 0 <==> !(0 <= weekday <= 4)
  {
    if 1 <= weekday <= 3 then Part(5, [MidWeek])
    else if weekday == 0 then Part(2, [MondayAcceptable])
    else if weekday == 4 then Part(0, [])
    else Part(-20, [Weekend])
  }

  /** Criterion 5: compensation towards the team with the heavier burden. */
  function Fairness(b: Burden, istHour: int, berlinHour: int): (p: Part)
    ensures |p.reasons| <= 1 && p.points == TotalWeight(p.reasons)
    ensures forall r :: r in p.reasons ==> Criterion(r) == 5
    ensures b.india == b.germany ==> p == Part(0, [])
    ensures b.germany > b.india ==>
      (p.points == 20 <==> Within(berlinHour, 10, 15)) && BalancesIndia !in p.reasons
    ensures b.india > b.germany ==>
      (p.points == 20 <==> Within(istHour, 11, 16)) && BalancesGermany !in p.reasons
    ensures p.points == 0 || p.points == 20
  {
    if b.germany > b.india then
      if Within(berlinHour, 10, 15) then Part(20, [BalancesGermany]) else Part(0, [])
    else if b.india > b.germany then
      if Within(istHour, 11, 16) then Part(20, [BalancesIndia]) else Part(0, [])
    else
      Part(0, [])
  }

  /** Criterion 6: recency, from the number of days between today and the slot's
      start date. Only the soonest bucket explains itself with a reason. */
  function Recency(daysAhead: int): (p: Part)
    ensures p.reasons == [Soonest] <==> daysAhead <= 3
    ensures p.reasons == [] <==> daysAhead > 3
    ensures 1 <= p.points <= 6
    ensures daysAhead <= 3 ==> p.points == Weight(Soonest)
    ensures 3 < daysAhead <= 7 ==> p == Part(4, [])
    ensures 7 < daysAhead <= 14 ==> p == Part(2, [])
    ensures daysAhead > 14 ==> p == Part(1, [])
  {
    if daysAhead <= 3 then Part(6, [Soonest])
    else if daysAhead <= 7 then Part(4, [])
    else if daysAhead <= 14 then Part(2, [])
    else Part(1, [])
  }

  /** Sooner is never worse: recency points do not increase with the distance. */
  lemma RecencyMonotone(d1: int, d2: int)
    requires d1 <= d2
    ensures Recency(d2).points <= Recency(d1).points
  {
  }

  /** Criterion 7: avoiding the Indian lunch hour 13:00-14:00. */
  function LunchAvoidance(istHour: int): (p: Part)
    ensures |p.reasons| <= 1 && p.points == TotalWeight(p.reasons)
    ensures forall r :: r in p.reasons ==> Criterion(r) == 7
    ensures p.points == 3 <==> !Within(istHour, 13, 14)
    ensures p.points == 0 <==> Within(istHour, 13, 14)
  {
    if !Within(istHour, 13, 14) then Part(3, [AvoidsLunch]) else Part(0, [])
  }

  // ---------------------------------------------------------------------------
  // Reading a candidate
  // ---------------------------------------------------------------------------

  /** The candidate's start on the Indian wall clock. */
  function IstWall(slot: Slot, lib: TimeLib): int {
    InZone(lib, IndiaZone, slot.start.instant).Wall()
  }

  /** The candidate's start on the German wall clock. */
  function BerlinWall(slot: Slot, lib: TimeLib): int {
    InZone(lib, GermanyZone, slot.start.instant).Wall()
  }

  /** The hour of the start on the Indian clock: fixed by the start instant alone,
      whatever zone the slot itself is expressed in. */
  function IstHour(slot: Slot, lib: TimeLib): (h: int)
    ensures 0 <= h < 24
    ensures h == HourOf(slot.start.instant + lib.offsetAt(IndiaZone, slot.start.instant))
  {
    HourOf(IstWall(slot, lib))
  }

  /** The hour of the start on the German clock, fixed by the start instant alone. */
  function BerlinHour(slot: Slot, lib: TimeLib): (h: int)
    ensures 0 <= h < 24
    ensures h == HourOf(slot.start.instant + lib.offsetAt(GermanyZone, slot.start.instant))
  {
    HourOf(BerlinWall(slot, lib))
  }

  /** The weekday of the start on the Indian calendar, fixed by the start instant alone. */
  function IstWeekday(slot: Slot, lib: TimeLib): (d: int)
    ensures 0 <= d < 7
    ensures d == WeekdayOf(slot.start.instant + lib.offsetAt(IndiaZone, slot.start.instant))
  {
    WeekdayOf(IstWall(slot, lib))
  }

  /** Converting into a zone forgets the zone the slot came in: two candidates
      starting at the same instant read the same hours and weekday, and neither
      reading looks at the end. */
  lemma ReadingsFollowStartInstant(a: Slot, b: Slot, lib: TimeLib)
    requires a.start.instant == b.start.instant
    ensures IstHour(a, lib) == IstHour(b, lib)
    ensures BerlinHour(a, lib) == BerlinHour(b, lib)
    ensures IstWeekday(a, lib) == IstWeekday(b, lib)
  {
  }

  /** The seconds part of the slot's length: whole days are dropped, so the
      value always lies in 0 .. 86399. */
  function DurationSeconds(slot: Slot): (s: int)
    ensures 0 <= s < SecondsPerDay
    ensures (slot.end.instant - slot.start.instant - s) % SecondsPerDay == 0
  {
    (slot.end.instant - slot.start.instant) % SecondsPerDay
  }

  /** For any slot shorter than a day the duration is its exact length. */
  lemma DurationOfShortSlot(slot: Slot)
    requires 0 <= slot.end.instant - slot.start.instant < SecondsPerDay
    ensures DurationSeconds(slot) == slot.end.instant - slot.start.instant
  {
  }

  /** Whole days vanish from the duration: a slot one day and ten minutes long
      is scored as a ten-minute, too-short slot. */
  lemma DurationDropsWholeDays(slot: Slot, b: Burden, lib: TimeLib, today: int)
    requires slot.end.instant - slot.start.instant == SecondsPerDay + 10 * SecondsPerMinute
    ensures DurationSeconds(slot) == 10 * SecondsPerMinute
    ensures SlotLength(DurationSeconds(slot)) == Part(-5, [TooShort])
    ensures ScoreSlot(slot, b, lib, today).reasons[1] == TooShort
  {
    LengthReason(slot, b, lib, today);
  }

  /** Calendar days from `today` to the start's date, read in the start's own zone. */
  function DaysAhead(slot: Slot, today: int): (d: int)
    ensures (today + d) * SecondsPerDay <= slot.start.Wall() < (today + d + 1) * SecondsPerDay
  {
    DateOf(slot.start.Wall()) - today
  }

  // ---------------------------------------------------------------------------
  // The score
  // ---------------------------------------------------------------------------

  datatype Scored = Scored(score: int, reasons: seq<Reason>)

  /** Reasons appear in criterion order, at most one per criterion. */
  predicate InCriterionOrder(rs: seq<Reason>) {
    forall i, j :: 0 <= i < j < |rs| ==> Criterion(rs[i]) < Criterion(rs[j])
  }

  /** score_slot: the sum of the seven contributions, reasons in criterion order. */
  function ScoreSlot(slot: Slot, b: Burden, lib: TimeLib, today: int): (r: Scored)
    ensures -42 <= r.score <= 71
    ensures 3 <= |r.reasons| <= 7
  {
    var ist := IstHour(slot, lib);
    var berlin := BerlinHour(slot, lib);
    var p1 := WorkingHours(ist, berlin);
    var p2 := SlotLength(DurationSeconds(slot));
    var p3 := PreferredWindow(ist, berlin);
    var p4 := DayOfWeek(IstWeekday(slot, lib));
    var p5 := Fairness(b, ist, berlin);
    var p6 := Recency(DaysAhead(slot, today));
    var p7 := LunchAvoidance(ist);
    Scored(
      p1.points + p2.points + p3.points + p4.points + p5.points + p6.points + p7.points,
      p1.reasons + p2.reasons + p3.reasons + p4.reasons + p5.reasons + p6.reasons + p7.reasons)
  }

  /** Appending at most one reason of criterion `k` after reasons of earlier criteria keeps the order. */
  lemma OrderedAppend(a: seq<Reason>, b: seq<Reason>, k: int)
    requires InCriterionOrder(a) && |b| <= 1
    requires forall r :: r in a ==> Criterion(r) < k
    requires forall r :: r in b ==> Criterion(r) == k
    ensures InCriterionOrder(a + b)
    ensures forall r :: r in a + b ==> Criterion(r) <= k
  {
  }

  /** The reason list follows the criteria: one reason from each of criteria 1
      to 3 in that order, then at most one from each later criterion, in order. */
  lemma ReasonsInCriterionOrder(slot: Slot, b: Burden, lib: TimeLib, today: int)
    ensures InCriterionOrder(ScoreSlot(slot, b, lib, today).reasons)
  {
    var ist := IstHour(slot, lib);
    var berlin := BerlinHour(slot, lib);
    var p1 := WorkingHours(ist, berlin);
    var p2 := SlotLength(DurationSeconds(slot));
    var p3 := PreferredWindow(ist, berlin);
    assert p1.reasons == [p1.reasons[0]] && p2.reasons == [p2.reasons[0]] && p3.reasons == [p3.reasons[0]];
    OrderedSeven(p1.reasons, p2.reasons, p3.reasons, DayOfWeek(IstWeekday(slot, lib)).reasons,
      Fairness(b, ist, berlin).reasons, Recency(DaysAhead(slot, today)).reasons, LunchAvoidance(ist).reasons);
  }

  /** At most one reason, and of criterion `k`. */
  predicate OfCriterion(rs: seq<Reason>, k: int) {
    |rs| <= 1 && forall r :: r in rs ==> Criterion(r) == k
  }

  /** The reasons of criteria 1 to 7, appended in that order, are in criterion order. */
  lemma OrderedSeven(r1: seq<Reason>, r2: seq<Reason>, r3: seq<Reason>, r4: seq<Reason>,
                     r5: seq<Reason>, r6: seq<Reason>, r7: seq<Reason>)
    requires OfCriterion(r1, 1) && OfCriterion(r2, 2) && OfCriterion(r3, 3) && OfCriterion(r4, 4)
    requires OfCriterion(r5, 5) && OfCriterion(r6, 6) && OfCriterion(r7, 7)
    ensures InCriterionOrder(r1 + r2 + r3 + r4 + r5 + r6 + r7)
  {
    OrderedAppend([], r1, 1);
    assert [] + r1 == r1;
    OrderedAppend(r1, r2, 2);
    OrderedAppend(r1 + r2, r3, 3);
    OrderedAppend(r1 + r2 + r3, r4, 4);
    OrderedAppend(r1 + r2 + r3 + r4, r5, 5);
    OrderedAppend(r1 + r2 + r3 + r4 + r5, r6, 6);
    OrderedAppend(r1 + r2 + r3 + r4 + r5 + r6, r7, 7);
  }

  /** Criteria 1 to 3 always speak first, in that order. */
  lemma FirstThreeReasons(slot: Slot, b: Burden, lib: TimeLib, today: int)
    ensures Criterion(ScoreSlot(slot, b, lib, today).reasons[0]) == 1
    ensures Criterion(ScoreSlot(slot, b, lib, today).reasons[1]) == 2
    ensures Criterion(ScoreSlot(slot, b, lib, today).reasons[2]) == 3
  {
    var ist := IstHour(slot, lib);
    var berlin := BerlinHour(slot, lib);
    var p1 := WorkingHours(ist, berlin);
    var p2 := SlotLength(DurationSeconds(slot));
    var p3 := PreferredWindow(ist, berlin);
    var a3 := p1.reasons + p2.reasons + p3.reasons;
    assert a3 == [p1.reasons[0], p2.reasons[0], p3.reasons[0]];
    var rs := ScoreSlot(slot, b, lib, today).reasons;
    assert rs[..3] == a3;
  }

  /** The points that recency adds without a reason. */
  function SilentRecency(daysAhead: int): (s: int)
    ensures daysAhead <= 3 ==> s == 0
    ensures 3 < daysAhead <= 7 ==> s == 4
    ensures 7 < daysAhead <= 14 ==> s == 2
    ensures daysAhead > 14 ==> s == 1
  {
    if daysAhead <= 3 then 0 else Recency(daysAhead).points
  }

  /** The reasons explain the score: apart from the recency bucket beyond three
      days, every point comes with the reason that carries it. */
  lemma ReasonsAccountForScore(slot: Slot, b: Burden, lib: TimeLib, today: int)
    ensures ScoreSlot(slot, b, lib, today).score
      == TotalWeight(ScoreSlot(slot, b, lib, today).reasons) + SilentRecency(DaysAhead(slot, today))
  {
    var ist := IstHour(slot, lib);
    var berlin := BerlinHour(slot, lib);
    var p1 := WorkingHours(ist, berlin);
    var p2 := SlotLength(DurationSeconds(slot));
    var p3 := PreferredWindow(ist, berlin);
    var p4 := DayOfWeek(IstWeekday(slot, lib));
    var p5 := Fairness(b, ist, berlin);
    var p6 := Recency(DaysAhead(slot, today));
    var p7 := LunchAvoidance(ist);
    assert TotalWeight(p6.reasons) + SilentRecency(DaysAhead(slot, today)) == p6.points by {
      if p6.reasons != [] {
        assert p6.reasons[1..] == [];
      }
    }
    TotalWeightSeven(p1.reasons, p2.reasons, p3.reasons, p4.reasons, p5.reasons, p6.reasons, p7.reasons);
  }

  lemma TotalWeightSeven(r1: seq<Reason>, r2: seq<Reason>, r3: seq<Reason>, r4: seq<Reason>,
                         r5: seq<Reason>, r6: seq<Reason>, r7: seq<Reason>)
    ensures TotalWeight(r1 + r2 + r3 + r4 + r5 + r6 + r7) == TotalWeight(r1) + TotalWeight(r2) + TotalWeight(r3)
      + TotalWeight(r4) + TotalWeight(r5) + TotalWeight(r6) + TotalWeight(r7)
  {
    TotalWeightAppend(r1, r2);
    TotalWeightAppend(r1 + r2, r3);
    TotalWeightAppend(r1 + r2 + r3, r4);
    TotalWeightAppend(r1 + r2 + r3 + r4, r5);
    TotalWeightAppend(r1 + r2 + r3 + r4 + r5, r6);
    TotalWeightAppend(r1 + r2 + r3 + r4 + r5 + r6, r7);
  }

  /** A candidate starting on an Indian Saturday or Sunday is marked as a weekend
      slot, takes the full 20-point penalty whatever else holds, and so can never
      score above 46. A Friday start gets no day-of-week reason at all. */
  lemma WeekendPenalty(slot: Slot, b: Burden, lib: TimeLib, today: int)
    ensures IstWeekday(slot, lib) >= 5 ==>
      && DayOfWeek(IstWeekday(slot, lib)).points == -20
      && Weekend in ScoreSlot(slot, b, lib, today).reasons
      && ScoreSlot(slot, b, lib, today).score <= 46
    ensures IstWeekday(slot, lib) == 4 ==>
      forall r :: r in ScoreSlot(slot, b, lib, today).reasons ==> Criterion(r) != 4
  {
  }

  /** Fairness as seen in the reasons: equal burdens never mention it; a heavier
      German burden is compensated exactly when the German start hour lies in
      10-15, and a heavier Indian burden exactly when the Indian one lies in 11-16. */
  lemma FairnessReasons(slot: Slot, b: Burden, lib: TimeLib, today: int)
    ensures b.india == b.germany ==>
      BalancesGermany !in ScoreSlot(slot, b, lib, today).reasons
      && BalancesIndia !in ScoreSlot(slot, b, lib, today).reasons
    ensures b.germany > b.india ==>
      (BalancesGermany in ScoreSlot(slot, b, lib, today).reasons <==> Within(BerlinHour(slot, lib), 10, 15))
      && BalancesIndia !in ScoreSlot(slot, b, lib, today).reasons
    ensures b.india > b.germany ==>
      (BalancesIndia in ScoreSlot(slot, b, lib, today).reasons <==> Within(IstHour(slot, lib), 11, 16))
      && BalancesGermany !in ScoreSlot(slot, b, lib, today).reasons
  {
    FairnessReason(slot, b, lib, today, BalancesGermany);
    FairnessReason(slot, b, lib, today, BalancesIndia);
  }

  /** A fairness reason is in the list exactly when the fairness criterion gave it. */
  lemma FairnessReason(slot: Slot, b: Burden, lib: TimeLib, today: int, x: Reason)
    requires Criterion(x) == 5
    ensures x in ScoreSlot(slot, b, lib, today).reasons <==> x in Fairness(b, IstHour(slot, lib), BerlinHour(slot, lib)).reasons
  {
  }

  /** With the shipped burdens (Germany 19, India 12) the bonus follows the German clock. */
  lemma DefaultBurdenFavoursGermany(slot: Slot, lib: TimeLib, today: int)
    ensures BalancesGermany in ScoreSlot(slot, DefaultBurden, lib, today).reasons
      <==> Within(BerlinHour(slot, lib), 10, 15)
  {
    FairnessReasons(slot, DefaultBurden, lib, today);
  }

  /** The second reason is the length criterion's, read from the wrapped duration. */
  lemma LengthReason(slot: Slot, b: Burden, lib: TimeLib, today: int)
    ensures ScoreSlot(slot, b, lib, today).reasons[1] == SlotLength(DurationSeconds(slot)).reasons[0]
  {
    var rs := WorkingHours(IstHour(slot, lib), BerlinHour(slot, lib)).reasons
      + SlotLength(DurationSeconds(slot)).reasons;
    assert ScoreSlot(slot, b, lib, today).reasons[..|rs|] == rs;
  }

  /** Working hours as seen in the reasons: ideal exactly when both clocks are in
      working hours, early or late exactly when neither is. */
  lemma WorkingHoursReasons(slot: Slot, b: Burden, lib: TimeLib, today: int)
    ensures IdealHours in ScoreSlot(slot, b, lib, today).reasons
      <==> Within(IstHour(slot, lib), 10, 17) && Within(BerlinHour(slot, lib), 9, 16)
    ensures EarlyOrLate in ScoreSlot(slot, b, lib, today).reasons
      <==> !Within(IstHour(slot, lib), 10, 17) && !Within(BerlinHour(slot, lib), 9, 16)
  {
  }

  /** The preferred window as seen in the reasons. */
  lemma PreferredWindowReasons(slot: Slot, b: Burden, lib: TimeLib, today: int)
    ensures InsideWindow in ScoreSlot(slot, b, lib, today).reasons
      <==> Within(IstHour(slot, lib), 11, 16) && Within(BerlinHour(slot, lib), 10, 15)
    ensures OutsideWindow in ScoreSlot(slot, b, lib, today).reasons
      <==> !Within(IstHour(slot, lib), 11, 16) && !Within(BerlinHour(slot, lib), 10, 15)
  {
  }

  /** Lunch avoidance as seen in the reasons. */
  lemma LunchReason(slot: Slot, b: Burden, lib: TimeLib, today: int)
    ensures AvoidsLunch in ScoreSlot(slot, b, lib, today).reasons <==> IstHour(slot, lib) != 13
  {
  }
}
