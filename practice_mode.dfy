/** A practice session (components/PracticeMode.tsx): which scripts are
    drilled, and the tracker that records one answer per drilled script. */
module PracticeMode {
  import opened Types
  import opened Filtering
  import opened StableSort

  /** How many scripts one session drills at most. */
  const QueueSize: nat := 3

  /** Successes minus failures: the lower, the more the script needs work. */
  function Score(s: ScriptItem): int
  {
    s.stats.successCount - s.stats.failCount
  }

  /** Worse score first, then the longest-unpractised first. */
  function QueueRank(s: ScriptItem): Rank
  {
    Rank(Score(s), TimestampOr0(s.stats.lastPracticedAt))
  }

  /** The session's comparator; its sign is the order QueueRank gives. */
  function QueueCompare(a: ScriptItem, b: ScriptItem): (c: int)
    ensures c < 0 <==> Precedes(QueueRank(a), QueueRank(b))
    ensures c == 0 <==> QueueRank(a) == QueueRank(b)
    ensures c > 0 <==> Precedes(QueueRank(b), QueueRank(a))
  {
    var scoreA := Score(a);
    var scoreB := Score(b);
    if scoreA != scoreB then scoreA - scoreB
    else TimestampOr0(a.stats.lastPracticedAt) - TimestampOr0(b.stats.lastPracticedAt)
  }

  /** A sorted copy of the library, cut to its first QueueSize entries. */
  function PracticeQueue(scripts: seq<ScriptItem>): seq<ScriptItem>
  {
    var sorted := SortBy(scripts, QueueRank);
    if |sorted| <= QueueSize then sorted else sorted[..QueueSize]
  }

  /** The queue holds min(3, |scripts|) library entries, none taken more often
      than it occurs in the library, and is a prefix of the sorted library. */
  lemma QueueDrawnFromLibrary(scripts: seq<ScriptItem>)
    ensures |PracticeQueue(scripts)| == if |scripts| < QueueSize then |scripts| else QueueSize
    ensures multiset(PracticeQueue(scripts)) <= multiset(scripts)
    ensures PracticeQueue(scripts) <= SortBy(scripts, QueueRank)
  {
    var sorted := SortBy(scripts, QueueRank);
    var q := PracticeQueue(scripts);
    assert sorted == q + sorted[|q|..];
    assert multiset(sorted) == multiset(q) + multiset(sorted[|q|..]);
  }

  /** The queue is ordered by score ascending, ties by the practice
      timestamp ascending with a missing timestamp read as 0. */
  lemma QueueOrdered(scripts: seq<ScriptItem>)
    ensures forall i, j :: 0 <= i < j < |PracticeQueue(scripts)| ==>
      var a, b := PracticeQueue(scripts)[i], PracticeQueue(scripts)[j];
      Score(a) < Score(b) ||
      (Score(a) == Score(b) && TimestampOr0(a.stats.lastPracticedAt) <= TimestampOr0(b.stats.lastPracticedAt))
  {
    var sorted := SortBy(scripts, QueueRank);
    SortBySorted(scripts, QueueRank);
    var q := PracticeQueue(scripts);
    forall i, j | 0 <= i < j < |q| ensures !Precedes(QueueRank(q[j]), QueueRank(q[i])) {
      assert q[i] == sorted[i] && q[j] == sorted[j];
    }
  }

  /** The queue takes the neediest scripts: nothing left out of it sorts
      strictly before anything in it. */
  lemma QueueTakesLowest(scripts: seq<ScriptItem>)
    ensures forall x | x in multiset(scripts) - multiset(PracticeQueue(scripts)) ::
      forall j :: 0 <= j < |PracticeQueue(scripts)| ==>
        !Precedes(QueueRank(x), QueueRank(PracticeQueue(scripts)[j]))
  {
    var sorted := SortBy(scripts, QueueRank);
    var q := PracticeQueue(scripts);
    var rest := sorted[|q|..];
    SortBySorted(scripts, QueueRank);
    SortedSplit(sorted, QueueRank, |q|);
    assert sorted == q + rest;
    assert multiset(scripts) - multiset(q) == multiset(rest);
    forall x | x in multiset(rest) ensures x in rest {}
  }

  /** Stability: scripts that tie with one another are queued in library
      order, and the queued ones are the first of their tie in the library. */
  lemma QueueStable(scripts: seq<ScriptItem>, k: Rank)
    ensures Filter(PracticeQueue(scripts), HasRank(QueueRank, k)) <= Filter(scripts, HasRank(QueueRank, k))
  {
    var sorted := SortBy(scripts, QueueRank);
    var q := PracticeQueue(scripts);
    assert sorted == q + sorted[|q|..];
    FilterAppend(q, sorted[|q|..], HasRank(QueueRank, k));
    SortByStable(scripts, QueueRank, k);
  }

  /** What the card shows: nothing revealed, the logic-flow keywords, or the
      full English script. */
  datatype HintView = Ready | Logic | Script

  /** The buttons of the card: "Show Logic Flow" and "Full Script" on a
      Ready card, "Show Full Script" on a Logic card, "Hide" on a Script card. */
  datatype HintButton = ShowLogicFlow | FullScript | ShowFullScript | Hide

  /** The moves the hint view may make. */
  predicate HintMove(v: HintView, w: HintView)
  {
    || (v == Ready && w == Logic)
    || (v == Ready && w == Script)
    || (v == Logic && w == Script)
    || (v == Script && w == Ready)
  }

  /** The view a button leads to, or None when the button is not on the card. */
  function HintTarget(v: HintView, b: HintButton): (r: Option<HintView>)
    ensures r.Some? ==> HintMove(v, r.value) && r.value != v
  {
    match (v, b)
    case (Ready, ShowLogicFlow) => Some(Logic)
    case (Ready, FullScript) => Some(Script)
    case (Logic, ShowFullScript) => Some(Script)
    case (Script, Hide) => Some(Ready)
    case _ => None
  }

  /** Every permitted move is offered by some button. */
  lemma HintMovesOffered(v: HintView, w: HintView)
    requires HintMove(v, w)
    ensures exists b :: HintTarget(v, b) == Some(w)
  {
    if v == Ready && w == Logic {
      assert HintTarget(v, ShowLogicFlow) == Some(w);
    } else if v == Ready {
      assert HintTarget(v, FullScript) == Some(w);
    } else if v == Logic {
      assert HintTarget(v, ShowFullScript) == Some(w);
    } else {
      assert HintTarget(v, Hide) == Some(w);
    }
  }

  /** One running session over the queue chosen when it starts. */
  class PracticeSession {
    const queue: seq<ScriptItem>
    var currentIndex: nat
    var viewState: HintView
    var results: seq<SessionResult>
    var isFinished: bool
    /** Every list handed to the completion callback so far, in order. */
    ghost var handedOver: seq<seq<SessionResult>>

    /** One result per answered script, in queue order; the results are
        handed over once, exactly when the session is finished. */
    ghost predicate Valid()
      reads this
    {
      && 0 < |queue|
      && currentIndex < |queue|
      && |results| == (if isFinished then |queue| else currentIndex)
      && (isFinished ==> currentIndex == |queue| - 1)
      && (forall i :: 0 <= i < |results| ==> results[i].scriptId == queue[i].id)
      && handedOver == (if isFinished then [results] else [])
    }

    /** A session starts only on a non-empty library: the dashboard disables
        its start button otherwise. */
    constructor (scripts: seq<ScriptItem>)
      requires |scripts| > 0
      ensures Valid()
      ensures queue == PracticeQueue(scripts)
      ensures currentIndex == 0 && viewState == Ready && results == []
      ensures !isFinished && handedOver == []
    {
      QueueDrawnFromLibrary(scripts);
      queue := PracticeQueue(scripts);
      currentIndex := 0;
      viewState := Ready;
      results := [];
      isFinished := false;
      handedOver := [];
    }

    /** The "Hard" (false) or "Easy" (true) answer for the current script.
        The answer buttons exist only until the session is finished. */
    method HandleResult(success: bool) returns (completed: Option<seq<SessionResult>>)
      requires Valid() && !isFinished
      modifies this
      ensures Valid()
      ensures results == old(results) + [SessionResult(queue[old(currentIndex)].id, success)]
      ensures old(currentIndex) < |queue| - 1 ==>
        && currentIndex == old(currentIndex) + 1 && viewState == Ready
        && !isFinished && completed == None && handedOver == []
      ensures old(currentIndex) == |queue| - 1 ==>
        && currentIndex == old(currentIndex) && viewState == old(viewState)
        && isFinished && completed == Some(results) && handedOver == [results]
        && |results| == |queue|
    {
      var currentScript := queue[currentIndex];
      results := results + [SessionResult(currentScript.id, success)];
      if currentIndex < |queue| - 1 {
        currentIndex := currentIndex + 1;
        viewState := Ready;
        completed := None;
      } else {
        isFinished := true;
        handedOver := handedOver + [results];
        completed := Some(results);
      }
    }

    /** A click on one of the card's hint buttons; a button the card does not
        show cannot be clicked and changes nothing. */
    method Press(b: HintButton)
      requires Valid() && !isFinished
      modifies this`viewState
      ensures Valid() && !isFinished
      ensures viewState == match HintTarget(old(viewState), b)
                           case Some(w) => w
                           case None => old(viewState)
      ensures old(viewState) != viewState ==> HintMove(old(viewState), viewState)
    {
      match HintTarget(viewState, b)
      case Some(w) => viewState := w;
      case None =>
    }
  }
}
