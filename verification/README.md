# Meeting-slot scheduler: a Dafny model of the matching and ranking engine

The scheduler proposes meeting times for two teams, one in India (Asia/Kolkata)
and one in Germany (Europe/Berlin). Each team's free time is a list of rows. A
row has a date, a start and an end time of day, and a zone key. The engine
has five steps:

1. **parse_slots** turns rows into zone-aware slots. It keeps a row only when its
   end is strictly after its start.
2. **find_overlaps** intersects every slot of the first team with every slot of
   the second team. It keeps only non-empty intersections, first team in the
   outer loop.
3. **score_slot** rates a candidate with seven fixed criteria. The criteria are
   working hours, length, preferred window, day of the week, fairness, recency
   and lunch avoidance. Each criterion adds points and usually one reason text.
4. **meeting_agent** scores every overlap and sorts stably by score, highest
   first. It returns the best two, or a distinct message when there is no
   overlap at all.
5. **generate_ics** writes one VCALENDAR/VEVENT text. The start and end use the
   floating local DATE-TIME form of section 3.3.5 of RFC 5545 (`YYYYMMDDTHHMMSS`).

Modules (one file each):

- `Results` (results.dfy): `Option` and `Result`.
- `Time` (time.dfy): time as the engine uses it.
  - Instants are integer seconds since the epoch.
  - A zone-aware datetime is a `Stamp(instant, offset)`; its wall-clock reading is `instant + offset`.
  - Hour, date and weekday are computed from the wall-clock reading.
  - The zone database and `strptime` are supplied as a `TimeLib` value of functions.
- `Slots` (slots.dfy): `parse_slots` and `find_overlaps`.
- `Scoring` (scoring.dfy): `score_slot`.
- `Ranking` (ranking.dfy): the stable descending sort and the top-n cut.
- `Agent` (agent.dfy): `meeting_agent`.
- `Ics` (ics.dfy): `generate_ics`, a reader for its output, and the round trip between them.

## Model

| member | source | states |
|---|---|---|
| Time.HourOf | mcp_tools.py:106 | the hour lies in 0..23 and is the hour-long stretch of the reading's own day that holds the reading |
| Time.WeekdayOf | mcp_tools.py:153 | the weekday always lies in 0..6; with Time.EpochWasThursday and Time.WeekdayAdvances it is Monday = 0 to Sunday = 6 |
| Time.EpochWasThursday | mcp_tools.py:153 | every reading on local 1970-01-01 has weekday 3, Thursday |
| Time.WeekdayAdvances | mcp_tools.py:153 | a reading one day later has the next weekday, Sunday (6) wrapping to Monday (0) |
| Time.WeekdayOfKnownDate | mcp_tools.py:153 | 2025-06-11 (day 20250) has weekday 2, Wednesday |
| Time.InZone | mcp_tools.py:93-97 | converting into a zone keeps the instant; the wall clock then reads the instant shifted by that zone's offset at that instant |
| Time.Localize | mcp_tools.py:45-46 | attaching a zone to a naive reading keeps the reading as the wall clock and takes the zone's offset for it |
| Slots.StampText | mcp_tools.py:45-46 | the text given to the parser is the date, one space, then the time, and each part can be recovered |
| Slots.ParseRow | mcp_tools.py:40-49 | unknown zone is an error before anything is read; a row reads iff the zone exists and both times parse; a read row is kept iff its end reads strictly later on the wall clock; the slot keeps both readings |
| Slots.ParseSlots | mcp_tools.py:37-51 | the list parses iff every row does; no more slots than rows; every kept slot ends strictly after it starts |
| Slots.ParseSlotsFirstError | mcp_tools.py:39-46 | a failed parse reports the error of the first unreadable row, and all earlier rows read |
| Slots.ParseSlotsAppend | mcp_tools.py:38-51 | parsing a concatenation parses each part in order and appends the results, so kept rows keep their input order |
| Slots.ParseSlotsSingle | mcp_tools.py:48-49 | one row gives its slot when kept, nothing when dropped, and its error when unreadable |
| Slots.Later | mcp_tools.py:66 | max picks the later start and, on a tie, the first team's datetime |
| Slots.Earlier | mcp_tools.py:67 | min picks the earlier end and, on a tie, the first team's datetime |
| Slots.Meet | mcp_tools.py:66-67 | the intersection starts no earlier than either start and ends no later than either end, using one of each as its bounds |
| Slots.MeetsIffSharedInstant | mcp_tools.py:69 | the overlap test holds iff some instant lies in both half-open slots |
| Slots.TouchingSlotsDoNotMeet | mcp_tools.py:69 | two slots that only touch end to start produce no overlap |
| Slots.Row | mcp_tools.py:64-70 | one slot of the first team yields at most one overlap per slot of the second team |
| Slots.Overlaps | mcp_tools.py:62-72 | an empty second calendar gives no overlaps, whatever the first holds |
| Slots.NoMeetingPairNoOverlaps | mcp_tools.py:62-72 | when no pair of slots strictly overlaps, there are no overlaps at all |
| Slots.NoMeetingRow | mcp_tools.py:64-70 | a slot that strictly overlaps no slot of the second team contributes nothing |
| Slots.OverlapsCount | mcp_tools.py:63-70 | there are at most one overlap per pair, so at most the product of the two list lengths |
| Slots.FindOverlaps | mcp_tools.py:58-72 | the run fails iff either calendar fails to parse, and the first team's error wins; otherwise at most one overlap per pair of parsed slots |
| Slots.OverlapsSound | mcp_tools.py:63-70 | every emitted overlap is the intersection of a strictly overlapping pair (one slot of each team), and the lemma returns that pair |
| Slots.OverlapsStrict | mcp_tools.py:66-70 | every emitted overlap starts strictly before it ends and lies inside a slot of each team |
| Slots.RowSound | mcp_tools.py:64-70 | every overlap in one slot's row comes from a strictly overlapping slot of the second team |
| Slots.OverlapsComplete | mcp_tools.py:63-70 | every strictly overlapping pair contributes its intersection to the output |
| Slots.RowComplete | mcp_tools.py:64-70 | within one row, every strictly overlapping slot of the second team contributes its intersection |
| Slots.OverlapsAppendOuter | mcp_tools.py:63 | output order: the first team's slots are the outer loop, so its slot list splits the output into consecutive blocks |
| Slots.OverlapsAppendInner | mcp_tools.py:64 | output order: within one block, the second team's slots are visited in their own order |
| Slots.RowAppend | mcp_tools.py:64-70 | a row over concatenated slots is the concatenation of the rows |
| Slots.OverlapsOfPair | mcp_tools.py:66-70 | a single pair yields exactly its intersection when the pair overlaps, otherwise nothing |
| Slots.MeetSymmetric | mcp_tools.py:66-69 | swapping the two slots changes neither the overlap test nor the instants the intersection spans |
| Slots.OverlapsSwap | mcp_tools.py:62-72 | swapping the two calendars gives the same multiset of overlap intervals, as instant spans |
| Scoring.WorkingHours | mcp_tools.py:106-114 | exactly one criterion-1 reason; 15 iff both teams are in working hours, -10 iff neither is, otherwise 8 |
| Scoring.SlotLength | mcp_tools.py:120-133 | exactly one criterion-2 reason; 10 iff at least 60 minutes, -5 iff under 30 minutes; 7 with the 45-minute reason from 45 to under 60 minutes; 4 with the minimum-length reason from 30 to under 45 minutes |
| Scoring.SlotLengthMonotone | mcp_tools.py:122-133 | a longer slot never earns fewer length points |
| Scoring.PreferredWindow | mcp_tools.py:139-147 | exactly one criterion-3 reason; 12 iff both start hours are in the preferred windows, -8 iff neither is, otherwise 7 |
| Scoring.DayOfWeek | mcp_tools.py:153-164 | Tuesday to Thursday give 5 with the mid-week reason; Monday gives 2 with its reason; Saturday or Sunday gives exactly -20 with the weekend reason; Friday is the only day with no reason and gives 0; points are negative iff the day is not Monday to Friday |
| Scoring.Fairness | mcp_tools.py:170-183 | equal burdens give 0 and no reason; heavier German burden gives 20 iff the Berlin hour is in 10..14; heavier Indian burden gives 20 iff the IST hour is in 11..15; the other team's reason never appears |
| Scoring.Recency | mcp_tools.py:191-199 | a reason is given iff the slot is at most 3 days ahead, and then 6 points; 4 points up to 7 days, 2 up to 14, 1 beyond, each without a reason |
| Scoring.RecencyMonotone | mcp_tools.py:191-199 | a later slot never earns more recency points |
| Scoring.LunchAvoidance | mcp_tools.py:205-207 | 3 points and a reason iff the IST start hour is not 13, otherwise nothing |
| Scoring.IstHour | mcp_tools.py:106 | the Indian start hour lies in 0..23 and is read from the start instant plus the Indian offset at that instant |
| Scoring.BerlinHour | mcp_tools.py:106 | the German start hour lies in 0..23 and is read from the start instant plus the German offset at that instant |
| Scoring.IstWeekday | mcp_tools.py:153 | the Indian weekday lies in 0..6 and is read from the start instant plus the Indian offset at that instant |
| Scoring.ReadingsFollowStartInstant | mcp_tools.py:93-97 | two candidates starting at the same instant read the same hours and weekday, whatever zone they came in |
| Scoring.DaysAhead | mcp_tools.py:189 | today plus the result is the day, in the start's own zone, on which the start falls |
| Scoring.DurationSeconds | mcp_tools.py:120 | the length used for scoring lies in 0..86399 and differs from the true length by whole days |
| Scoring.DurationOfShortSlot | mcp_tools.py:120 | for a slot shorter than a day the length used is the true length |
| Scoring.DurationDropsWholeDays | mcp_tools.py:120-133 | a slot of one day and ten minutes has a ten-minute duration, and the scorer gives it the too-short reason as its second reason |
| Scoring.ScoreSlot | mcp_tools.py:79-209 | the score always lies in [-42, 71], and there are between 3 and 7 reasons |
| Scoring.ReasonsInCriterionOrder | mcp_tools.py:99-209 | reasons appear in criterion order, at most one per criterion |
| Scoring.FirstThreeReasons | mcp_tools.py:106-147 | the first three reasons always come from criteria 1, 2 and 3 |
| Scoring.SilentRecency | mcp_tools.py:191-199 | the recency points given without a reason are 0 up to 3 days ahead, 4 up to 7, 2 up to 14 and 1 beyond |
| Scoring.ReasonsAccountForScore | mcp_tools.py:99-209 | the score equals the summed weights of the reasons plus the silent recency points |
| Scoring.WeekendPenalty | mcp_tools.py:153-164 | a weekend start in India always carries the weekend reason, -20 points and a score of at most 46; a Friday start gives no day-of-week reason |
| Scoring.FairnessReasons | mcp_tools.py:170-183 | the fairness reasons in the final list follow exactly the burden comparison and the matching team's start hour |
| Scoring.FairnessReason | mcp_tools.py:170-183 | a fairness reason is in the final list iff the fairness criterion gave it |
| Scoring.DefaultBurdenFavoursGermany | mcp_tools.py:27-30 | with the shipped burdens (India 12, Germany 19) the fairness bonus is given iff the Berlin start hour is in 10..14 |
| Scoring.LengthReason | mcp_tools.py:120-133 | the candidate's second reason is the length criterion's, read from the duration with whole days dropped |
| Scoring.WorkingHoursReasons | mcp_tools.py:106-114 | the candidate's reasons include the ideal-hours reason iff the IST start hour is in 10..16 and the Berlin one in 9..15, and the early/late reason iff neither is |
| Scoring.PreferredWindowReasons | mcp_tools.py:139-147 | the candidate's reasons include the inside-window reason iff the IST start hour is in 11..15 and the Berlin one in 10..14, and the outside-window reason iff neither is |
| Scoring.LunchReason | mcp_tools.py:205-207 | the lunch reason is in the final list iff the IST start hour is not 13 |
| Ranking.Insert | meeting_agent.py:39 | inserting one entry adds exactly that entry and changes the length by one |
| Ranking.InsertSorted | meeting_agent.py:39 | inserting into a list sorted highest first keeps it sorted |
| Ranking.SortByScore | meeting_agent.py:39 | the sort is a permutation of its input and ends up highest score first |
| Ranking.InsertStable | meeting_agent.py:39 | an inserted entry goes after every entry already there with the same score |
| Ranking.SortStable | meeting_agent.py:39 | stability: for every score, the entries with that score come out in input order |
| Ranking.Best | meeting_agent.py:39-42 | the cut keeps min(n, length) entries, highest first; the kept and dropped entries together are the input; every kept entry scores at least as much as every dropped one |
| Ranking.CutSorted | meeting_agent.py:42 | cutting a sorted list loses nothing, keeps the prefix sorted, and leaves the prefix outscoring the rest |
| Ranking.BestCovers | meeting_agent.py:39-42 | every entry is either kept or scores no more than each kept entry |
| Ranking.BestPrefersEarliest | meeting_agent.py:39-42 | among equal scores the earliest discovered entries are the ones kept |
| Agent.Pick | meeting_agent.py:29-56 | the no-slots message iff there are no overlaps, the top message otherwise; exactly min(2, overlaps) results, each one of the overlaps |
| Agent.ToSuggestions | meeting_agent.py:46-50 | each result keeps the start and end of its ranked entry, in order |
| Agent.BestComesFromOverlaps | meeting_agent.py:42 | every kept entry's slot is one of the overlaps |
| Agent.Suggest | meeting_agent.py:33-56 | with the real scores: the no-slots message iff there are no overlaps; min(2, overlaps) results, each one of the overlaps |
| Agent.MeetingAgent | meeting_agent.py:20-56 | fails iff a calendar fails to parse, with the first team's error first; otherwise at most two results, empty exactly with the no-slots message and exactly when there are no overlaps |
| Agent.PickIsBest | meeting_agent.py:39-50 | the results are the kept entries of the stable descending sort, in order |
| Agent.PickOutranksTheRest | meeting_agent.py:39-42 | an overlap that is not suggested scores no more than any suggestion |
| Agent.EntryIndex | meeting_agent.py:33-36 | a kept entry is some overlap paired with that overlap's own score |
| Agent.PickFirstIsEarliestBest | meeting_agent.py:39-42 | the first result is the earliest discovered overlap with the highest score |
| Agent.SortedHeadIsMax | meeting_agent.py:39 | the head of the sorted list has the highest score of the input |
| Agent.SortedHeadIsFirstBest | meeting_agent.py:39 | by stability, the head of the sorted list is the first input entry with the highest score |
| Agent.PickHead | meeting_agent.py:39-46 | the first result is the head of the sorted list |
| Agent.SuggestDependsOnlyOnScores | meeting_agent.py:34-36 | reasons are discarded: two scorings that agree on every score give the same reply |
| Agent.SuggestFirstIsEarliestBest | meeting_agent.py:33-46 | the first suggestion has the highest score_slot score, and no earlier overlap ties with it |
| Agent.SuggestOutranksTheRest | meeting_agent.py:33-42 | an overlap that is not suggested has a score_slot score no higher than any suggestion's |
| Ics.Pad | meeting_agent.py:61 | a field is written in exactly its width, all digits |
| Ics.ReadPad | meeting_agent.py:61 | reading a padded field gives its number back |
| Ics.BasicFormat | meeting_agent.py:61-62 | the datetime form has 15 characters: eight digits, `T`, six digits |
| Ics.ReadBasicFormat | meeting_agent.py:61-62 | reading the datetime form gives back the datetime |
| Ics.BasicFormatInjective | meeting_agent.py:61-62 | distinct datetimes are written differently |
| Ics.GenerateIcs | meeting_agent.py:57-67 | the invite starts with `BEGIN:VCALENDAR` and ends with `END:VCALENDAR`, each followed by a line feed; its length is fixed apart from the title |
| Ics.GenerateIcsFields | meeting_agent.py:58-66 | `DTSTART:` is followed by the start's 15-character form, `DTEND:` by the end's, and `SUMMARY:` by the title verbatim, each on its own line |
| Ics.GenerateDefaultIcs | meeting_agent.py:57-67 | without a title the invite reads back to its start, its end and the default title |
| Ics.ReadGenerateIcs | meeting_agent.py:57-67 | reading an invite back gives exactly its start, end and title, whatever the title contains |

## Left out

- CSV loading (mcp_tools.py:9-16) and generate_large_slots.py are file I/O; calendars and burdens are given as values.
- app.py (the Streamlit page and download button) is user interface and is not part of this model.
- format_time (meeting_agent.py:10-17) only renders times for display. A `Suggestion` keeps the start and end datetimes it would render.
- The IANA zone database, `ZoneInfo` and `astimezone`, including DST gaps and folds, are not modelled. Offsets come from `TimeLib.offsetForWall` and `TimeLib.offsetAt`, and key lookup from `TimeLib.zoneExists`.
- `strptime` and its format rules are not modelled. `TimeLib.readWall` reads a "date time" text to a wall-clock value or fails. Both failures abort the whole run, as the uncaught exception does; missing row keys are not modelled.
- `datetime.now()` (mcp_tools.py:189) becomes the `today` parameter: the day number of the current local date.
- Slots.Later: max and min (mcp_tools.py:66-67) and the strict test `Slots.Meets` (mcp_tools.py:69) compare datetimes by instant. Python does so only when the two datetimes carry different zones. When both carry the same zone, Python compares wall clocks instead. That happens at line 66-67 when both teams' rows name one zone. It also happens at line 69 whenever one slot lies inside the other, because both bounds then come from the same slot. Every parsed datetime has fold=0 (mcp_tools.py:45-46). So wall-clock order and instant order agree across an autumn fold. They disagree only for a reading inside a spring-forward gap. For example, Berlin 02:30 on the spring transition day takes the earlier +1 offset and becomes 01:30 UTC, while 03:10 CEST is 01:10 UTC. The model orders such readings by instant.
- Scoring.DurationSeconds: the subtraction at mcp_tools.py:120 is taken on instants. Python subtracts wall clocks when the overlap's start and end carry the same zone; this agrees except across a DST change.
- Scoring.ScoreSlot: the criteria read the start's hour and weekday in each zone (`IstHour`, `BerlinHour`, `IstWeekday`). The converted ends (mcp_tools.py:94, 97) are never used by the source and are not modelled.
- Agent.MeetingAgent: the reply keeps datetimes, not the formatted strings of format_time; the burden pair is a parameter (the shipped one is `Scoring.DefaultBurden`).
- Ics: the invite takes calendar fields (`DateTime`) directly. Converting an instant to a civil date is not modelled.
- Ics.Pad: `%Y` is written as four digits. Years before 1000 are written unpadded by some C libraries; that platform difference is not modelled.
- RFC 5545 conformance is not claimed. The template ends lines with LF, where section 3.1 requires CRLF. It has no UID or DTSTAMP, which section 3.6.1 requires. It does not escape TEXT values as section 3.3.11 requires. The model writes exactly what the template writes.
- The reason texts of mcp_tools.py are kept in `Scoring.Text`. The lemmas state reasons as `Reason` values, so no lemma states that distinct reasons have distinct texts.
