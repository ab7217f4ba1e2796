/** The shared request limiters of MusicBrainz and AcoustID: threads claim start times under a lock,
    and a server's `Retry-After` pushes the next one out. Times are in milliseconds. */
module RateLimiter {
  import opened Basics

  const ACOUSTID_MIN_INTERVAL: int := 340

  /** What happened to a limiter, with the clock each call read under the lock. */
  datatype Event =
    | Reserved(now: int, start: int)
    | BackedOff(now: int, delay: nat)

  function Grant(slot: Option<int>, now: int): int {
    if slot.Some? && slot.value > now then slot.value else now
  }

  function SlotAfter(history: seq<Event>, interval: nat): Option<int> {
    if history == [] then None
    else
      match history[|history| - 1]
      case Reserved(now, start) => Some(start + interval)
      case BackedOff(now, delay) => Some(Grant(SlotAfter(history[..|history| - 1], interval), now + delay))
  }

  /** Every start was granted from what came before it. */
  ghost predicate Granted(history: seq<Event>, interval: nat) {
    forall i :: 0 <= i < |history| && history[i].Reserved? ==>
        history[i].start == Grant(SlotAfter(history[..i], interval), history[i].now)
  }

  class Limiter {
    const interval: nat
    var nextSlot: Option<int>
    ghost var history: seq<Event>

    ghost predicate Valid() reads this {
      nextSlot == SlotAfter(history, interval) && Granted(history, interval)
    }

    constructor (interval: nat)
      ensures Valid() && history == [] && this.interval == interval
    {
      this.interval, nextSlot, history := interval, None, [];
    }

    /** Claim a start under the lock, then sleep until it unless it has passed. */
    method ReserveSlot(now: int, later: int) returns (start: int, wake: int)
      requires Valid()
      modifies this
      ensures Valid() && history == old(history) + [Reserved(now, start)]
      ensures start == Grant(old(nextSlot), now) && wake >= start && wake >= later
    {
      start := match nextSlot
        case Some(next) => if next > now then next else now
        case None => now;
      nextSlot := Some(start + interval);
      Extend(Reserved(now, start));
      wake := if start > later then later + (start - later) else later;
    }

    ghost method Extend(e: Event)
      requires Granted(history, interval)
      requires e.Reserved? ==> e.start == Grant(SlotAfter(history, interval), e.now)
      modifies this`history
      ensures history == old(history) + [e] && Granted(history, interval)
      ensures history[..|old(history)|] == old(history)
    {
      GrantedSnoc(history, e, interval);
      history := history + [e];
    }

    method BackOff(now: int, delay: nat)
      requires Valid()
      modifies this
      ensures Valid() && history == old(history) + [BackedOff(now, delay)]
    {
      var resume := now + delay;
      nextSlot := Some(match nextSlot
        case Some(next) => if next > resume then next else resume
        case None => resume);
      Extend(BackedOff(now, delay));
    }
  }

  lemma GrantedSnoc(history: seq<Event>, e: Event, interval: nat)
    requires Granted(history, interval)
    requires e.Reserved? ==> e.start == Grant(SlotAfter(history, interval), e.now)
    ensures Granted(history + [e], interval)
    ensures (history + [e])[..|history|] == history
  {
    var h := history + [e];
    assert h[..|history|] == history;
    forall i | 0 <= i < |h| && h[i].Reserved? ensures h[i].start == Grant(SlotAfter(h[..i], interval), h[i].now) {
      if i < |history| { assert h[..i] == history[..i]; }
    }
  }

  // ---- Over whole histories, whatever the clock does --------------------------------

  /** The earliest start an event leaves open for later reservations. */
  function Floor(e: Event, interval: nat): int {
    match e
    case Reserved(_, start) => start + interval
    case BackedOff(now, delay) => now + delay
  }

  lemma {:induction false} SlotNeverEarlier(history: seq<Event>, interval: nat, i: nat, j: nat)
    requires Granted(history, interval) && i <= j <= |history|
    ensures SlotAfter(history[..i], interval).Some? ==>
              SlotAfter(history[..j], interval).Some? &&
                  SlotAfter(history[..i], interval).value <= SlotAfter(history[..j], interval).value
    decreases j
  {
    if i < j {
      SlotNeverEarlier(history, interval, i, j - 1);
      assert history[..j][..j - 1] == history[..j - 1];
    }
  }

  /** After an event, no start is granted below its floor: starts keep the interval, and a back-off of
      `d` read at `t` holds everything back until `t + d`. */
  lemma GrantsRespect(history: seq<Event>, interval: nat, i: nat, j: nat)
    requires Granted(history, interval) && i < j < |history| && history[j].Reserved?
    ensures history[j].start >= Floor(history[i], interval)
    ensures history[j].start >= history[j].now
  {
    assert history[..i + 1][..i] == history[..i];
    SlotNeverEarlier(history, interval, i + 1, j);
  }

  lemma {:induction false} SlotIsSomeFloor(history: seq<Event>, interval: nat, n: nat)
    requires Granted(history, interval) && 0 < n <= |history|
    ensures exists i :: 0 <= i < n && SlotAfter(history[..n], interval) == Some(Floor(history[i], interval))
  {
    assert history[..n][..n - 1] == history[..n - 1];
    assert SlotAfter(history[..0], interval) == None;
    if history[n - 1].BackedOff? && SlotAfter(history[..n], interval) != Some(Floor(history[n - 1], interval)) {
      SlotIsSomeFloor(history, interval, n - 1);
    } else {
      assert SlotAfter(history[..n], interval) == Some(Floor(history[n - 1], interval));
    }
  }

  /** No one waits longer than the floors require: a start is the call's own time or one of the floors. */
  lemma GrantsAreEarliest(history: seq<Event>, interval: nat, j: nat)
    requires Granted(history, interval) && j < |history| && history[j].Reserved?
    ensures history[j].start == history[j].now || exists i :: 0 <= i < j &&
                                                    history[j].start == Floor(history[i], interval)
  {
    if history[j].start != history[j].now { SlotIsSomeFloor(history, interval, j); }
  }

  /** The reservations whose start falls in the half-open window. */
  function StartsIn(history: seq<Event>, from: int, width: nat): set<int> {
    set i | 0 <= i < |history| && history[i].Reserved? && from <= history[i].start < from + width
  }

  lemma {:induction false} Spread(history: seq<Event>, interval: nat, chosen: set<int>, first: int, last: int)
    requires Granted(history, interval) && first in chosen && last in chosen
    requires forall i :: i in chosen ==> 0 <= i < |history| && history[i].Reserved? && first <= i <= last
    ensures history[last].start - history[first].start >= (|chosen| - 1) * interval
    decreases |chosen|
  {
    if first == last {
      assert chosen == {first};
    } else {
      var rest := chosen - {last};
      assert first in rest;
      var before := Greatest(rest);
      Spread(history, interval, rest, first, before);
      GrantsRespect(history, interval, before, last);
      OneMore(|rest|, interval);
    }
  }

  lemma OneMore(n: nat, interval: nat)
    ensures n * interval == (n - 1) * interval + interval
  {
  }

  ghost function Greatest(s: set<int>): (m: int)
    requires |s| > 0
    ensures m in s && forall i :: i in s ==> i <= m
  {
    GreatestExists(s);
    var m :| m in s && forall i :: i in s ==> i <= m;
    m
  }

  ghost function Least(s: set<int>): (m: int)
    requires |s| > 0
    ensures m in s && forall i :: i in s ==> m <= i
  {
    LeastExists(s);
    var m :| m in s && forall i :: i in s ==> m <= i;
    m
  }

  lemma NonEmpty(s: set<int>)
    requires |s| > 0
    ensures exists x :: x in s
  {
    assert (forall x :: x !in s) ==> s == {};
  }

  lemma {:induction false} GreatestExists(s: set<int>)
    requires |s| > 0
    ensures exists m :: m in s && forall i :: i in s ==> i <= m
  {
    assert exists x :: x in s by { NonEmpty(s); }
    var x :| x in s;
    assert s == (s - {x}) + {x};
    if s != {x} {
      GreatestExists(s - {x});
      var y :| y in s - {x} && forall i :: i in s - {x} ==> i <= y;
      var m := if y < x then x else y;
      assert m in s && forall i :: i in s ==> i <= m;
    }
  }

  lemma {:induction false} LeastExists(s: set<int>)
    requires |s| > 0
    ensures exists m :: m in s && forall i :: i in s ==> m <= i
  {
    assert exists x :: x in s by { NonEmpty(s); }
    var x :| x in s;
    assert s == (s - {x}) + {x};
    if s != {x} {
      LeastExists(s - {x});
      var y :| y in s - {x} && forall i :: i in s - {x} ==> y <= i;
      var m := if y > x then x else y;
      assert m in s && forall i :: i in s ==> m <= i;
    }
  }

  lemma Multiplied(k: nat, n: nat, interval: nat)
    requires k <= n
    ensures k * interval <= n * interval
  {
  }

  /** A window no wider than `k` intervals holds at most `k` starts. */
  lemma WindowBound(history: seq<Event>, interval: nat, from: int, width: nat, k: nat)
    requires Granted(history, interval) && width <= k * interval
    ensures |StartsIn(history, from, width)| <= k
  {
    var chosen := StartsIn(history, from, width);
    if |chosen| > k {
      Spread(history, interval, chosen, Least(chosen), Greatest(chosen));
      Multiplied(k, |chosen| - 1, interval);
      assert false;
    }
  }

  /** AcoustID's budget: at most three starts in any half-open second. */
  lemma AcoustIdBudget(history: seq<Event>, from: int)
    requires Granted(history, ACOUSTID_MIN_INTERVAL)
    ensures |StartsIn(history, from, 1000)| <= 3
  {
    WindowBound(history, ACOUSTID_MIN_INTERVAL, from, 1000, 3);
  }
}
