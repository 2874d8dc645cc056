/** The library overview: how many scripts are due, and the newest-first
    listing (components/Dashboard.tsx). */
module Dashboard {
  import opened Types
  import opened Filtering
  import opened StableSort

  /** The cool-down after a practice session, in milliseconds. */
  const OneHour: int := 60 * 60 * 1000

  /** A script is due when it was never practised (a falsy timestamp) or when
      strictly more than one hour has passed since it was. */
  predicate IsDue(s: ScriptItem, now: int)
  {
    !Practised(s.stats.lastPracticedAt) || now - s.stats.lastPracticedAt.value > OneHour
  }

  function DueAt(now: int): ScriptItem -> bool
  {
    s => IsDue(s, now)
  }

  /** The number shown as "scripts waiting for review". */
  function DueCount(scripts: seq<ScriptItem>, now: int): (n: nat)
    ensures n <= |scripts|
  {
    |Filter(scripts, DueAt(now))|
  }

  /** The cool-down window: a script practised at a truthy time `t` is due
      exactly when more than one hour has elapsed, so at exactly one hour it
      is still waiting. */
  lemma CooldownWindow(s: ScriptItem, t: int, now: int)
    requires s.stats.lastPracticedAt == Some(t) && t != 0
    ensures IsDue(s, now) <==> now > t + OneHour
    ensures now == t + OneHour ==> !IsDue(s, now) && IsDue(s, now + 1)
  {
  }

  /** Once due, a script stays due as the clock moves on. */
  lemma DueStaysDue(s: ScriptItem, now: int, later: int)
    requires IsDue(s, now) && now <= later
    ensures IsDue(s, later)
  {
  }

  /** The count reaches the library size exactly when every script is due,
      and is zero exactly when none is; each due script is counted once per
      occurrence. */
  lemma {:induction false} DueCountExtremes(scripts: seq<ScriptItem>, now: int)
    ensures DueCount(scripts, now) == |scripts| <==> forall i :: 0 <= i < |scripts| ==> IsDue(scripts[i], now)
    ensures DueCount(scripts, now) == 0 <==> forall i :: 0 <= i < |scripts| ==> !IsDue(scripts[i], now)
  {
    FilterKeepsAll(scripts, DueAt(now));
    FilterDropsAll(scripts, DueAt(now));
  }

  /** The count splits over a split library, so adding scripts never lowers it. */
  lemma {:induction false} DueCountAppend(a: seq<ScriptItem>, b: seq<ScriptItem>, now: int)
    ensures DueCount(a + b, now) == DueCount(a, now) + DueCount(b, now)
  {
    FilterAppend(a, b, DueAt(now));
  }

  /** The comparator `b.createdAt - a.createdAt`: negative when `a` is newer. */
  function NewestCompare(a: ScriptItem, b: ScriptItem): (c: int)
    ensures c < 0 <==> Precedes(NewestRank(a), NewestRank(b))
    ensures c == 0 <==> NewestRank(a) == NewestRank(b)
    ensures c > 0 <==> Precedes(NewestRank(b), NewestRank(a))
  {
    b.createdAt - a.createdAt
  }

  /** Newest first is ascending order of the negated creation time. */
  function NewestRank(s: ScriptItem): Rank
  {
    Rank(-s.createdAt, 0)
  }

  /** `[...scripts].sort((a, b) => b.createdAt - a.createdAt)`. */
  function NewestFirst(scripts: seq<ScriptItem>): seq<ScriptItem>
  {
    SortBy(scripts, NewestRank)
  }

  /** The listing is a permutation of the library, newest first, and scripts
      created at the same instant (the same rank `Rank(-createdAt, 0)`) keep
      their library order. */
  lemma NewestFirstSpec(scripts: seq<ScriptItem>)
    ensures multiset(NewestFirst(scripts)) == multiset(scripts)
    ensures forall i, j :: 0 <= i < j < |NewestFirst(scripts)| ==>
              NewestFirst(scripts)[i].createdAt >= NewestFirst(scripts)[j].createdAt
    ensures forall k :: Filter(NewestFirst(scripts), HasRank(NewestRank, k))
                     == Filter(scripts, HasRank(NewestRank, k))
  {
    SortBySorted(scripts, NewestRank);
    forall k ensures Filter(NewestFirst(scripts), HasRank(NewestRank, k))
                  == Filter(scripts, HasRank(NewestRank, k)) {
      SortByStable(scripts, NewestRank, k);
    }
  }
}
