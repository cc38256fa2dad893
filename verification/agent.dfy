/** The orchestrator (meeting_agent.py, meeting_agent): find the common free
    slots of the two calendars, score each one, sort by score, highest first,
    and suggest the best two, or report that there is no common slot. */
module Agent {
  import opened Results
  import opened Time
  import opened Slots
  import opened Scoring
  import opened Ranking

  /** How many suggestions are returned at most. */
  const TopCount := 2

  const NoSlotsMessage := "\U{274C} No common free slots"
  const TopMessage := "Top 2 Suggested Meeting Slots"

  /** A suggested slot, with the datetimes of the overlap it came from. */
  datatype Suggestion = Suggestion(start: Stamp, end: Stamp)

  /** The reply: a status message and the suggestions, best first. */
  datatype Reply = Reply(message: string, results: seq<Suggestion>)

  function SlotOf(s: Suggestion): Slot {
    Slot(s.start, s.end)
  }

  /** Each overlap's score, in discovery order. */
  function Scores(overlaps: seq<Slot>, b: Burden, lib: TimeLib, today: int): (r: seq<int>)
    ensures |r| == |overlaps|
    ensures forall i :: 0 <= i < |r| ==> r[i] == ScoreSlot(overlaps[i], b, lib, today).score
  {
    seq(|overlaps|, i requires 0 <= i < |overlaps| => ScoreSlot(overlaps[i], b, lib, today).score)
  }

  /** Each overlap paired with its score, in discovery order. */
  function Entries(overlaps: seq<Slot>, scores: seq<int>): (r: seq<Ranked>)
    requires |scores| == |overlaps|
    ensures |r| == |overlaps|
    ensures forall i :: 0 <= i < |r| ==> r[i] == Ranked(scores[i], overlaps[i])
  {
    seq(|overlaps|, i requires 0 <= i < |overlaps| => Ranked(scores[i], overlaps[i]))
  }

  /** Sorting by score and the top-two cut, given each overlap's score. */
  function Pick(overlaps: seq<Slot>, scores: seq<int>): (r: Reply)
    requires |scores| == |overlaps|
    ensures r.message == NoSlotsMessage <==> |overlaps| == 0
    ensures r.message == TopMessage <==> |overlaps| > 0
    ensures |r.results| == Min(TopCount, |overlaps|)
    ensures forall i :: 0 <= i < |r.results| ==> SlotOf(r.results[i]) in overlaps
  {
    if |overlaps| == 0 then Reply(NoSlotsMessage, [])
    else
      BestComesFromOverlaps(overlaps, scores);
      Reply(TopMessage, ToSuggestions(Best(Entries(overlaps, scores), TopCount).top))
  }

  function ToSuggestions(top: seq<Ranked>): (r: seq<Suggestion>)
    ensures |r| == |top|
    ensures forall i :: 0 <= i < |r| ==> SlotOf(r[i]) == top[i].slot
  {
    seq(|top|, i requires 0 <= i < |top| => Suggestion(top[i].slot.start, top[i].slot.end))
  }

  lemma BestComesFromOverlaps(overlaps: seq<Slot>, scores: seq<int>)
    requires |scores| == |overlaps|
    ensures forall i :: 0 <= i < |Best(Entries(overlaps, scores), TopCount).top| ==>
      Best(Entries(overlaps, scores), TopCount).top[i].slot in overlaps
  {
    var ranked := Entries(overlaps, scores);
    var top := Best(ranked, TopCount).top;
    forall i | 0 <= i < |top|
      ensures top[i].slot in overlaps
    {
      assert top[i] in multiset(ranked);
      var j :| 0 <= j < |ranked| && ranked[j] == top[i];
    }
  }

  /** Scoring, ranking and the top-two cut over a list of overlaps; the reasons
      are dropped, only the scores reach the ranking. */
  function Suggest(overlaps: seq<Slot>, b: Burden, lib: TimeLib, today: int): (r: Reply)
    ensures r.message == NoSlotsMessage <==> |overlaps| == 0
    ensures |r.results| == Min(TopCount, |overlaps|)
    ensures forall i :: 0 <= i < |r.results| ==> SlotOf(r.results[i]) in overlaps
  {
    Pick(overlaps, Scores(overlaps, b, lib, today))
  }

  /** meeting_agent: parse both calendars, find their overlaps and rank them. A
      row that cannot be read aborts the run; no common slot is not an error. */
  function MeetingAgent(rawC: seq<RawSlot>, rawG: seq<RawSlot>, b: Burden, lib: TimeLib, today: int)
    : (r: Result<Reply, SlotError>)
    ensures r.Err? <==> ParseSlots(rawC, lib).Err? || ParseSlots(rawG, lib).Err?
    ensures ParseSlots(rawC, lib).Err? ==> r == Err(ParseSlots(rawC, lib).error)
    ensures r.Ok? ==> |r.value.results| <= TopCount
    ensures r.Ok? ==> (r.value.results == [] <==> r.value.message == NoSlotsMessage)
    ensures r.Ok? ==> (r.value.results == [] <==> FindOverlaps(rawC, rawG, lib).value == [])
  {
    match FindOverlaps(rawC, rawG, lib)
    case Err(e) => Err(e)
    case Ok(overlaps) => Ok(Suggest(overlaps, b, lib, today))
  }

  /** The suggestions are the first entries of the stable descending order. */
  lemma PickIsBest(overlaps: seq<Slot>, scores: seq<int>)
    requires |scores| == |overlaps| && |overlaps| > 0
    ensures var top := Best(Entries(overlaps, scores), TopCount).top;
      |Pick(overlaps, scores).results| == |top|
      && forall i :: 0 <= i < |top| ==> SlotOf(Pick(overlaps, scores).results[i]) == top[i].slot
  {
  }

  /** Every overlap left out scores no more than any suggestion. */
  lemma PickOutranksTheRest(overlaps: seq<Slot>, scores: seq<int>, i: int, j: int)
    requires |scores| == |overlaps|
    requires 0 <= i < |Pick(overlaps, scores).results| && 0 <= j < |overlaps|
    requires forall k :: 0 <= k < |Pick(overlaps, scores).results| ==>
      SlotOf(Pick(overlaps, scores).results[k]) != overlaps[j]
    ensures exists p :: (0 <= p < |overlaps| && SlotOf(Pick(overlaps, scores).results[i]) == overlaps[p]
      && scores[j] <= scores[p])
  {
    var ranked := Entries(overlaps, scores);
    var top := Best(ranked, TopCount).top;
    PickIsBest(overlaps, scores);
    BestCovers(ranked, TopCount, j);
    forall k | 0 <= k < |top|
      ensures top[k] != ranked[j]
    {
      assert SlotOf(Pick(overlaps, scores).results[k]) == top[k].slot;
    }
    var p := EntryIndex(overlaps, scores, top[i]);
  }

  /** A picked entry is one of the entries, so it has an index. */
  lemma EntryIndex(overlaps: seq<Slot>, scores: seq<int>, e: Ranked) returns (p: int)
    requires |scores| == |overlaps|
    requires e in Best(Entries(overlaps, scores), TopCount).top
    ensures 0 <= p < |overlaps| && e == Ranked(scores[p], overlaps[p])
  {
    var ranked := Entries(overlaps, scores);
    assert e in multiset(Best(ranked, TopCount).top);
    assert e in multiset(ranked);
    p :| 0 <= p < |ranked| && ranked[p] == e;
  }

  lemma {:induction false} WithScoreHead(s: seq<Ranked>, k: int, i: int)
    requires 0 <= i < |s| && s[i].score == k
    requires forall j :: 0 <= j < i ==> s[j].score != k
    ensures |WithScore(s, k)| > 0 && WithScore(s, k)[0] == s[i]
  {
    if i > 0 {
      WithScoreHead(s[1..], k, i - 1);
    }
  }

  lemma FirstWithScore(s: seq<Ranked>, k: int, p: int) returns (i: int)
    requires 0 <= p < |s| && s[p].score == k
    ensures 0 <= i <= p && s[i].score == k
    ensures forall j :: 0 <= j < i ==> s[j].score != k
  {
    i := p;
    while exists j :: 0 <= j < i && s[j].score == k
      invariant 0 <= i <= p && s[i].score == k
      decreases i
    {
      var j :| 0 <= j < i && s[j].score == k;
      i := j;
    }
  }

  /** The first suggestion is the earliest discovered overlap among those with
      the highest score. */
  lemma PickFirstIsEarliestBest(overlaps: seq<Slot>, scores: seq<int>) returns (i: int)
    requires |scores| == |overlaps| && |overlaps| > 0
    ensures 0 <= i < |overlaps|
    ensures SlotOf(Pick(overlaps, scores).results[0]) == overlaps[i]
    ensures forall j :: 0 <= j < |overlaps| ==> scores[j] <= scores[i]
    ensures forall j :: 0 <= j < i ==> scores[j] < scores[i]
  {
    var ranked := Entries(overlaps, scores);
    var p := SortedHeadIsMax(ranked);
    var m := ranked[p].score;
    i := FirstWithScore(ranked, m, p);
    SortedHeadIsFirstBest(ranked, i);
    PickHead(overlaps, scores);
  }

  /** The head of the sorted list is an entry with the highest score. */
  lemma SortedHeadIsMax(s: seq<Ranked>) returns (p: int)
    requires |s| > 0
    ensures 0 <= p < |s| && s[p] == SortByScore(s)[0]
    ensures forall j :: 0 <= j < |s| ==> s[j].score <= s[p].score
  {
    var sorted := SortByScore(s);
    forall j | 0 <= j < |s|
      ensures s[j].score <= sorted[0].score
    {
      assert s[j] in multiset(sorted);
      var q :| 0 <= q < |sorted| && sorted[q] == s[j];
    }
    assert sorted[0] in multiset(s);
    p :| 0 <= p < |s| && s[p] == sorted[0];
  }

  /** By stability, the head of the sorted list is the first entry with its score. */
  lemma SortedHeadIsFirstBest(s: seq<Ranked>, i: int)
    requires 0 <= i < |s|
    requires forall j :: 0 <= j < |s| ==> s[j].score <= s[i].score
    requires forall j :: 0 <= j < i ==> s[j].score != s[i].score
    ensures SortByScore(s)[0] == s[i]
  {
    var sorted := SortByScore(s);
    var m := s[i].score;
    assert sorted[0].score == m by {
      assert s[i] in multiset(sorted);
      var q :| 0 <= q < |sorted| && sorted[q] == s[i];
      assert sorted[0] in multiset(s);
      var r :| 0 <= r < |s| && s[r] == sorted[0];
    }
    WithScoreHead(s, m, i);
    WithScoreHead(sorted, m, 0);
    SortStable(s, m);
  }

  /** The first suggestion is the head of the sorted list. */
  lemma PickHead(overlaps: seq<Slot>, scores: seq<int>)
    requires |scores| == |overlaps| && |overlaps| > 0
    ensures SlotOf(Pick(overlaps, scores).results[0]) == SortByScore(Entries(overlaps, scores))[0].slot
  {
    PickIsBest(overlaps, scores);
    assert Best(Entries(overlaps, scores), TopCount).top[0] == SortByScore(Entries(overlaps, scores))[0];
  }

  /** Only the scores matter: two scorings that agree on every overlap's score
      give the same reply, whatever reasons they give. */
  lemma SuggestDependsOnlyOnScores(overlaps: seq<Slot>, b1: Burden, lib1: TimeLib, t1: int,
                                   b2: Burden, lib2: TimeLib, t2: int)
    requires forall i :: 0 <= i < |overlaps| ==>
      ScoreSlot(overlaps[i], b1, lib1, t1).score == ScoreSlot(overlaps[i], b2, lib2, t2).score
    ensures Suggest(overlaps, b1, lib1, t1) == Suggest(overlaps, b2, lib2, t2)
  {
    assert Scores(overlaps, b1, lib1, t1) == Scores(overlaps, b2, lib2, t2);
  }

  /** The first suggestion is the earliest discovered overlap among those with
      the highest score_slot score. */
  lemma SuggestFirstIsEarliestBest(overlaps: seq<Slot>, b: Burden, lib: TimeLib, today: int) returns (i: int)
    requires |overlaps| > 0
    ensures 0 <= i < |overlaps|
    ensures SlotOf(Suggest(overlaps, b, lib, today).results[0]) == overlaps[i]
    ensures forall j :: 0 <= j < |overlaps| ==>
      ScoreSlot(overlaps[j], b, lib, today).score <= ScoreSlot(overlaps[i], b, lib, today).score
    ensures forall j :: 0 <= j < i ==>
      ScoreSlot(overlaps[j], b, lib, today).score < ScoreSlot(overlaps[i], b, lib, today).score
  {
    i := PickFirstIsEarliestBest(overlaps, Scores(overlaps, b, lib, today));
  }

  /** Every overlap left out of the suggestions scores no more than each suggestion. */
  lemma SuggestOutranksTheRest(overlaps: seq<Slot>, b: Burden, lib: TimeLib, today: int, i: int, j: int)
    requires 0 <= i < |Suggest(overlaps, b, lib, today).results| && 0 <= j < |overlaps|
    requires forall k :: 0 <= k < |Suggest(overlaps, b, lib, today).results| ==>
      SlotOf(Suggest(overlaps, b, lib, today).results[k]) != overlaps[j]
    ensures exists p :: (0 <= p < |overlaps| && SlotOf(Suggest(overlaps, b, lib, today).results[i]) == overlaps[p]
      && ScoreSlot(overlaps[j], b, lib, today).score <= ScoreSlot(overlaps[p], b, lib, today).score)
  {
    PickOutranksTheRest(overlaps, Scores(overlaps, b, lib, today), i, j);
  }
}
