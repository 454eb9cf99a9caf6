/** The flashcard scheduler of flashcards.js: decks of cards, a study session
    that walks a shuffled deck, and the fixed spaced-repetition table that
    moves a card's level and next review date on every answer.
    Times are milliseconds since the epoch, supplied by the caller. */
module Flashcards {
  import opened Base
  import opened Shuffle
  import opened Clock

  const MsPerDay: int := 24 * 60 * 60 * 1000

  datatype Card = Card(
    id: string, question: string, answer: string,
    level: int, nextReview: Option<int>, reviewCount: int)

  datatype Deck = Deck(
    id: string, title: string, description: string,
    cards: seq<Card>, created: int, lastStudied: Option<int>)

  datatype StudyStats = StudyStats(
    known: int, unknown: int, total: int,
    startTime: Option<int>, endTime: Option<int>)

  /** What the end-of-session summary shows; a success rate of `None` is `NaN`. */
  datatype Summary = Summary(known: int, unknown: int, seconds: int, successRate: Option<int>)

  // ---------------------------------------------------------------- spaced repetition

  /** Days until the next review for each level 1..5. */
  const ReviewIntervals: seq<int> := [1, 3, 7, 14, 30]

  /** `reviewIntervals[level - 1] || 1`: a level outside the table reads
      `undefined` and falls back to one day. */
  function DaysUntilReview(level: int): (d: int)
    ensures 1 <= d <= 30
    ensures !(1 <= level <= 5) ==> d == 1
  {
    if 1 <= level <= 5 then ReviewIntervals[level - 1] else 1
  }

  /** A higher level never waits fewer days. */
  lemma DaysUntilReviewMonotone(l: int, l': int)
    requires 1 <= l <= l' <= 5
    ensures DaysUntilReview(l) <= DaysUntilReview(l')
  {
  }

  /** The level after an answer: one up, capped at 5, for a known card; back to 1 otherwise. */
  function NextLevel(level: int, known: bool): (l: int)
    ensures l <= 5
    ensures !known ==> l == 1
    ensures known && level < 5 ==> l == level + 1
    ensures known && level >= 5 ==> l == 5
  {
    if known then Min(5, level + 1) else 1
  }

  /** Levels start in 1..5 and stay there. */
  lemma NextLevelInRange(level: int, known: bool)
    requires 1 <= level <= 5
    ensures 1 <= NextLevel(level, known) <= 5
  {
  }

  /** The level after `n` answers in a row that were all "known". */
  function LevelAfterKnown(level: int, n: nat): int
    decreases n
  {
    if n == 0 then level else LevelAfterKnown(NextLevel(level, true), n - 1)
  }

  /** `n` known answers in a row raise the level by `n`, capped at 5. */
  lemma {:induction false} LevelAfterKnownCapped(level: int, n: nat)
    requires n > 0
    ensures LevelAfterKnown(level, n) == Min(5, level + n)
    decreases n
  {
    if n > 1 {
      LevelAfterKnownCapped(NextLevel(level, true), n - 1);
    }
  }

  /** The card after one answer at time `now`. */
  function Respond(card: Card, known: bool, now: int): (c: Card)
    ensures c.id == card.id && c.question == card.question && c.answer == card.answer
    ensures c.level == NextLevel(card.level, known)
    ensures c.reviewCount == card.reviewCount + 1
    ensures c.nextReview == Some(now + DaysUntilReview(c.level) * MsPerDay)
    ensures now + MsPerDay <= c.nextReview.value <= now + 30 * MsPerDay
    ensures c == card.(level := c.level, nextReview := c.nextReview, reviewCount := c.reviewCount)
  {
    var level := NextLevel(card.level, known);
    card.(level := level,
          nextReview := Some(now + DaysUntilReview(level) * MsPerDay),
          reviewCount := card.reviewCount + 1)
  }

  predicate LevelsInRange(cards: seq<Card>)
  {
    forall i :: 0 <= i < |cards| ==> 1 <= cards[i].level <= 5
  }

  // ---------------------------------------------------------------- summary

  /** `Math.round(known / total * 100)`; `None` when `total` is 0 (the division gives `NaN`). */
  function SuccessRate(known: int, total: int): (r: Option<int>)
    ensures r.None? <==> total == 0
    ensures total > 0 && 0 <= known <= total ==> r.Some? && 0 <= r.value <= 100
  {
    if total == 0 then None
    else if total < 0 then Some(Percent(-known, -total))
    else
      if 0 <= known <= total then PercentBounds(known, total); Some(Percent(known, total))
      else Some(Percent(known, total))
  }

  /** `Math.round((endTime - startTime) / 1000)`; a missing start time is `null`, which counts as 0. */
  function SessionSeconds(startTime: Option<int>, now: int): (r: int)
    ensures var elapsed := now - (if startTime.Some? then startTime.value else 0);
            1000 * (2 * r - 1) <= 2 * elapsed < 1000 * (2 * r + 1)
  {
    RoundRatio(now - (if startTime.Some? then startTime.value else 0), 1000)
  }

  // ---------------------------------------------------------------- session state

  class FlashcardSystem {
    var decks: seq<Deck>
    /** The index in `decks` of `currentDeck`; `None` stands for `null`/`undefined`. */
    var current: Option<nat>
    var currentCardIndex: int
    var studyStats: StudyStats

    /** The session invariant: the answers counted so far are the cards passed. */
    ghost predicate Valid()
      reads this
    {
      && studyStats.known >= 0 && studyStats.unknown >= 0
      && studyStats.known + studyStats.unknown == currentCardIndex
      && (current.Some? ==>
            && current.value < |decks|
            && currentCardIndex <= |decks[current.value].cards|
            && studyStats.total == |decks[current.value].cards|)
    }

    /** The cards of the current deck, or none without one. */
    function SessionCards(): seq<Card>
      reads this
    {
      if current.Some? && current.value < |decks| then decks[current.value].cards else []
    }

    /** `init` with the decks already loaded. */
    constructor (loaded: seq<Deck>)
      ensures decks == loaded && current == None && currentCardIndex == 0
      ensures studyStats == StudyStats(0, 0, 0, None, None)
      ensures Valid()
    {
      decks := loaded;
      current := None;
      currentCardIndex := 0;
      studyStats := StudyStats(0, 0, 0, None, None);
    }

    /** `startStudySession(deckId)`: find the deck, stamp it, reset the counters,
        shuffle a copy of its cards into it and render the first card, which
        shows the summary at once for an empty deck. An unknown id leaves
        `currentDeck` undefined and changes nothing else. */
    method StartStudySession(deckId: string, now: int, picks: seq<int>) returns (summary: Option<Summary>)
      requires Valid()
      requires forall i :: 0 <= i < |decks| ==> ValidPicks(picks, |decks[i].cards|)
      modifies this
      ensures Valid()
      ensures var k := FindIndex(old(decks), (d: Deck) => d.id == deckId);
        if k < 0 then
          && current == None && decks == old(decks) && summary == None
          && currentCardIndex == old(currentCardIndex) && studyStats == old(studyStats)
        else
          && var n := |old(decks)[k].cards|;
          && current == Some(k)
          && decks == old(decks)[k := old(decks)[k].(
               lastStudied := Some(now),
               cards := Shuffled(old(decks)[k].cards, picks))]
          && multiset(decks[k].cards) == multiset(old(decks)[k].cards)
          && currentCardIndex == 0
          && studyStats == StudyStats(0, 0, n, Some(now), if n == 0 then Some(now) else None)
          && (summary.Some? <==> n == 0)
          && (summary.Some? ==> summary.value == Summary(0, 0, 0, None))
    {
      summary := None;
      var k := FindIndex(decks, (d: Deck) => d.id == deckId);
      if k < 0 {
        current := None;
        return;
      }
      var deck := decks[k];
      studyStats := StudyStats(0, 0, |deck.cards|, Some(now), None);
      var a := new Card[|deck.cards|](i requires 0 <= i < |deck.cards| => deck.cards[i]);
      assert a[..] == deck.cards;
      ShuffleArray(a, picks);
      decks := decks[k := deck.(lastStudied := Some(now), cards := a[..])];
      currentCardIndex := 0;
      current := Some(k);
      summary := RenderCurrentCard(now);
    }

    /** `processResponse(known)`: update the card under the cursor, count the
        answer, move on and render the next card, which shows the summary after
        the last one; without a deck or past the last card nothing happens. */
    method ProcessResponse(known: bool, now: int) returns (summary: Option<Summary>)
      requires Valid()
      modifies this
      ensures Valid()
      ensures current == old(current)
      ensures old(current).None? || old(currentCardIndex) >= |old(SessionCards())| ==>
        && decks == old(decks) && currentCardIndex == old(currentCardIndex)
        && studyStats == old(studyStats) && summary == None
      ensures old(current).Some? && old(currentCardIndex) < |old(SessionCards())| ==>
        var k, i := old(current).value, old(currentCardIndex);
        var counted := if known then old(studyStats).(known := old(studyStats).known + 1)
                       else old(studyStats).(unknown := old(studyStats).unknown + 1);
        && decks == old(decks)[k := old(decks)[k].(
             cards := old(decks)[k].cards[i := Respond(old(decks)[k].cards[i], known, now)])]
        && currentCardIndex == i + 1
        && studyStats == (if i + 1 < |old(SessionCards())| then counted
                          else counted.(endTime := Some(now)))
        && (summary.Some? <==> i + 1 == |old(SessionCards())|)
        && (summary.Some? ==>
              summary.value == Summary(counted.known, counted.unknown,
                                       SessionSeconds(counted.startTime, now),
                                       SuccessRate(counted.known, counted.total)))
      ensures LevelsInRange(old(SessionCards())) ==> LevelsInRange(SessionCards())
      ensures |SessionCards()| == |old(SessionCards())|
    {
      summary := None;
      if current.None? || currentCardIndex >= |decks[current.value].cards| {
        return;
      }
      var k := current.value;
      var deck := decks[k];
      var card := Respond(deck.cards[currentCardIndex], known, now);
      decks := decks[k := deck.(cards := deck.cards[currentCardIndex := card])];
      if known {
        studyStats := studyStats.(known := studyStats.known + 1);
      } else {
        studyStats := studyStats.(unknown := studyStats.unknown + 1);
      }
      currentCardIndex := currentCardIndex + 1;
      summary := RenderCurrentCard(now);
    }

    /** `renderCurrentCard()` during a session: past the last card it shows the
        session summary; otherwise it only draws the card. */
    method RenderCurrentCard(now: int) returns (summary: Option<Summary>)
      requires Valid() && current.Some?
      modifies this
      ensures Valid()
      ensures decks == old(decks) && current == old(current)
      ensures currentCardIndex == old(currentCardIndex)
      ensures summary.Some? <==> currentCardIndex >= |SessionCards()|
      ensures summary.Some? ==>
        && studyStats == old(studyStats).(endTime := Some(now))
        && summary.value == Summary(studyStats.known, studyStats.unknown,
                                    SessionSeconds(studyStats.startTime, now),
                                    SuccessRate(studyStats.known, studyStats.total))
      ensures summary.None? ==> studyStats == old(studyStats)
    {
      summary := None;
      if currentCardIndex >= |decks[current.value].cards| {
        var s := ShowSessionSummary(now);
        summary := Some(s);
      }
    }

    /** The figures `showSessionSummary` computes: it stamps the end time and
        reports the counts, the rounded duration and the success rate. */
    method ShowSessionSummary(now: int) returns (s: Summary)
      requires Valid()
      modifies this
      ensures studyStats == old(studyStats).(endTime := Some(now))
      ensures decks == old(decks) && current == old(current)
      ensures currentCardIndex == old(currentCardIndex)
      ensures s.known == studyStats.known && s.unknown == studyStats.unknown
      ensures s.seconds == SessionSeconds(studyStats.startTime, now)
      ensures s.successRate == SuccessRate(studyStats.known, studyStats.total)
      ensures s.successRate.None? <==> studyStats.total == 0
      ensures current.Some? && studyStats.total > 0 ==>
        s.successRate.Some? && 0 <= s.successRate.value <= 100
      ensures Valid()
    {
      studyStats := studyStats.(endTime := Some(now));
      s := Summary(studyStats.known, studyStats.unknown,
                   SessionSeconds(studyStats.startTime, now),
                   SuccessRate(studyStats.known, studyStats.total));
    }
  }
}
