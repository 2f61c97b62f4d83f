/** The lock on repeated login and credential-reveal failures (app.py): time stamps of failures per
    client and user, pruned to a sliding window whenever they are checked.  Times are whole microseconds. */
module FailureWindow {
  import opened Sequences

  type Key = (string, string)

  const MAX_FAILURES: nat := 5
  const WINDOW: int := 15 * 60 * 1_000_000

  type Stamps = map<Key, seq<int>>

  function At(stamps: Stamps, key: Key): seq<int> {
    if key in stamps then stamps[key] else []
  }

  function Since(stamps: seq<int>, cutoff: int): (r: seq<int>)
    ensures |r| <= |stamps|
  {
    if stamps == [] then []
    else Since(stamps[..|stamps| - 1], cutoff) + (if stamps[|stamps| - 1] >= cutoff then [stamps[|stamps| - 1]] else [])
  }

  class Failures {
    var stamps: Stamps

    constructor ()
      ensures stamps == map[]
    {
      stamps := map[];
    }

    method IsLocked(key: Key, now: int) returns (locked: bool)
      modifies this
      ensures stamps == old(stamps)[key := Since(At(old(stamps), key), now - WINDOW)]
      ensures var all := At(old(stamps), key);
              locked <==> |set k | 0 <= k < |all| && all[k] >= now - 900_000_000| >= 5
    {
      SinceCounts(At(stamps, key), now - WINDOW);
      var cutoff := now - WINDOW;
      var all := At(stamps, key);
      var recent := [];
      for i := 0 to |all|
        invariant recent == Since(all[..i], cutoff)
      {
        assert all[..i + 1][..i] == all[..i];
        if all[i] >= cutoff { recent := recent + [all[i]]; }
      }
      assert all[..|all|] == all;
      stamps := stamps[key := recent];
      locked := |recent| >= MAX_FAILURES;
    }

    /** In every window that reaches back to the failure, this client has one failure more, and no window
        of another client changes. */
    method RecordFailure(key: Key, now: int)
      modifies this
      ensures stamps == old(stamps)[key := At(old(stamps), key) + [now]]
      ensures forall other :: other != key ==> At(stamps, other) == At(old(stamps), other)
      ensures forall cutoff ::
                |Since(At(stamps, key), cutoff)|
                    == |Since(At(old(stamps), key), cutoff)| + (if now >= cutoff then 1 else 0)
    {
      forall cutoff
        ensures |Since(At(stamps, key) + [now], cutoff)|
                  == |Since(At(stamps, key), cutoff)| + (if now >= cutoff then 1 else 0)
      {
        SinceMore(At(stamps, key), now, cutoff);
      }
      stamps := stamps[key := At(stamps, key) + [now]];
    }

    method ClearFailures(key: Key)
      modifies this
      ensures stamps == old(stamps) - {key}
    {
      stamps := stamps - {key};
    }
  }

  /** As many stamps are kept as there are from the cutoff on. */
  lemma {:induction false} SinceCounts(stamps: seq<int>, cutoff: int)
    ensures |Since(stamps, cutoff)| == |set k | 0 <= k < |stamps| && stamps[k] >= cutoff|
  {
    if stamps != [] {
      var n := |stamps| - 1;
      SinceCounts(stamps[..n], cutoff);
      var earlier := set k | 0 <= k < n && stamps[..n][k] >= cutoff;
      var all := set k | 0 <= k < |stamps| && stamps[k] >= cutoff;
      assert all == earlier + (if stamps[n] >= cutoff then {n} else {});
    }
  }

  // ---------------- pruning changes no answer ----------------

  datatype Event = Check(key: Key, now: int) | Fail(key: Key, now: int) | Clear(key: Key)

  function Next(stamps: Stamps, e: Event, prunes: bool): Stamps {
    match e
    case Check(key, now) => if prunes then stamps[key := Since(At(stamps, key), now - WINDOW)] else stamps
    case Fail(key, now) => stamps[key := At(stamps, key) + [now]]
    case Clear(key) => stamps - {key}
  }

  /** A check answers that the client is locked exactly when five of its failures lie in the last 15 minutes. */
  lemma LockedIff(stamps: Stamps, key: Key, now: int)
    ensures FirstAnswer(stamps, Check(key, now)) ==
              [|set k | 0 <= k < |At(stamps, key)| && At(stamps, key)[k] >= now - 900_000_000| >= 5]
  {
    SinceCounts(At(stamps, key), now - WINDOW);
  }

  function FirstAnswer(stamps: Stamps, e: Event): seq<bool> {
    if e.Check? then [|Since(At(stamps, e.key), e.now - WINDOW)| >= MAX_FAILURES] else []
  }

  /** What the checks of a run answer; with `prunes` false, the reference that forgets nothing but what a
      success clears. */
  function Answers(stamps: Stamps, events: seq<Event>, prunes: bool): seq<bool>
    decreases |events|
  {
    if events == [] then []
    else
      var e := events[0];
      FirstAnswer(stamps, e) + Answers(Next(stamps, e, prunes), events[1..], prunes)
  }

  function RunAll(stamps: Stamps, events: seq<Event>, prunes: bool): Stamps
    decreases |events|
  {
    if events == [] then stamps else RunAll(Next(stamps, events[0], prunes), events[1..], prunes)
  }

  /** The checks of each client read the clock in order since that client was last cleared; `last` is the
      reading of its latest check.  Nothing is asked of failures, nor across clients. */
  predicate Ordered(events: seq<Event>, last: map<Key, int>)
    decreases |events|
  {
    events == []
    || (match events[0]
        case Check(key, now) => (key in last ==> last[key] <= now) && Ordered(events[1..], last[key := now])
        case Fail(_, _) => Ordered(events[1..], last)
        case Clear(key) => Ordered(events[1..], last - {key}))
  }

  ghost predicate Agree(a: seq<int>, b: seq<int>, bound: int) {
    forall cutoff :: cutoff >= bound ==> Since(a, cutoff) == Since(b, cutoff)
  }

  /** Both tables answer every check that is still in order alike. */
  ghost predicate AgreeUnder(pruned: Stamps, full: Stamps, last: map<Key, int>) {
    forall key :: AgreeFrom(At(pruned, key), At(full, key), key, last)
  }

  lemma {:induction false} SinceTwice(stamps: seq<int>, early: int, late: int)
    requires early <= late
    ensures Since(Since(stamps, early), late) == Since(stamps, late)
  {
    if stamps != [] {
      var n := |stamps| - 1;
      SinceTwice(stamps[..n], early, late);
      var kept := Since(stamps[..n], early);
      if stamps[n] >= early {
        assert (kept + [stamps[n]])[..|kept|] == kept;
      } else {
        assert kept + [] == kept;
      }
    }
  }

  lemma SinceMore(stamps: seq<int>, x: int, cutoff: int)
    ensures Since(stamps + [x], cutoff) == Since(stamps, cutoff) + (if x >= cutoff then [x] else [])
  {
    assert (stamps + [x])[..|stamps|] == stamps;
  }

  lemma PrunedAgrees(a: seq<int>, b: seq<int>, bound: int, cutoff: int)
    requires Agree(a, b, bound) && cutoff >= bound
    ensures Agree(Since(a, cutoff), b, cutoff)
  {
    forall c | c >= cutoff ensures Since(Since(a, cutoff), c) == Since(b, c) {
      SinceTwice(a, cutoff, c);
    }
  }

  lemma MoreAgrees(a: seq<int>, b: seq<int>, bound: int, x: int)
    requires Agree(a, b, bound)
    ensures Agree(a + [x], b + [x], bound)
  {
    forall c | c >= bound ensures Since(a + [x], c) == Since(b + [x], c) {
      SinceMore(a, x, c);
      SinceMore(b, x, c);
    }
  }

  function LastAfter(e: Event, last: map<Key, int>): map<Key, int> {
    match e
    case Check(key, now) => last[key := now]
    case Fail(_, _) => last
    case Clear(key) => last - {key}
  }

  /** The table entries of one client answer its checks alike from its latest check on. */
  ghost predicate AgreeFrom(a: seq<int>, b: seq<int>, key: Key, last: map<Key, int>) {
    if key in last then Agree(a, b, last[key] - WINDOW) else a == b
  }

  lemma KeyAgrees(pruned: Stamps, full: Stamps, e: Event, last: map<Key, int>)
    requires AgreeFrom(At(pruned, e.key), At(full, e.key), e.key, last)
    requires e.Check? && e.key in last ==> last[e.key] <= e.now
    ensures AgreeFrom(At(Next(pruned, e, true), e.key), At(Next(full, e, false), e.key), e.key, LastAfter(e, last))
  {
    match e
    case Check(key, now) => CheckAgrees(pruned, full, key, now, last);
    case Fail(key, now) =>
      if key in last { MoreAgrees(At(pruned, key), At(full, key), last[key] - WINDOW, now); }
    case Clear(_) =>
  }

  lemma CheckAgrees(pruned: Stamps, full: Stamps, key: Key, now: int, last: map<Key, int>)
    requires AgreeFrom(At(pruned, key), At(full, key), key, last) && (key in last ==> last[key] <= now)
    ensures Agree(At(Next(pruned, Check(key, now), true), key), At(Next(full, Check(key, now), false), key),
                  now - WINDOW)
  {
    var bound := if key in last then last[key] - WINDOW else now - WINDOW;
    PrunedAgrees(At(pruned, key), At(full, key), bound, now - WINDOW);
  }

  lemma NextAgrees(pruned: Stamps, full: Stamps, e: Event, last: map<Key, int>)
    requires AgreeUnder(pruned, full, last) && (e.Check? && e.key in last ==> last[e.key] <= e.now)
    ensures AgreeUnder(Next(pruned, e, true), Next(full, e, false), LastAfter(e, last))
  {
    KeyAgrees(pruned, full, e, last);
    var pruned', full', last' := Next(pruned, e, true), Next(full, e, false), LastAfter(e, last);
    forall key ensures AgreeFrom(At(pruned', key), At(full', key), key, last') {
      assert AgreeFrom(At(pruned, key), At(full, key), key, last);
      if key != e.key {
        assert At(pruned', key) == At(pruned, key) && At(full', key) == At(full, key);
        assert (key in last' <==> key in last) && (key in last ==> last'[key] == last[key]);
      }
    }
  }

  predicate SameAnswers(stamps: Stamps, events: seq<Event>) {
    Answers(stamps, events, true) == Answers(stamps, events, false)
  }

  lemma {:induction false} PruningAgrees(pruned: Stamps, full: Stamps, events: seq<Event>, last: map<Key, int>)
    requires AgreeUnder(pruned, full, last) && Ordered(events, last)
    ensures Answers(pruned, events, true) == Answers(full, events, false)
    decreases |events|
  {
    if events != [] {
      var e := events[0];
      NextAgrees(pruned, full, e, last);
      PruningAgrees(Next(pruned, e, true), Next(full, e, false), events[1..], LastAfter(e, last));
      if e.Check? {
        assert AgreeFrom(At(pruned, e.key), At(full, e.key), e.key, last);
        assert Since(At(pruned, e.key), e.now - WINDOW) == Since(At(full, e.key), e.now - WINDOW);
      }
    }
  }

  /** Dropping old stamps at every check never changes an answer, however checks, failures and successes
      of all clients interleave, as long as the checks of each single client are in order. */
  lemma PruningIsInvisible(stamps: Stamps, events: seq<Event>)
    requires Ordered(events, map[])
    ensures SameAnswers(stamps, events)
  {
    PruningAgrees(stamps, stamps, events, map[]);
  }

  // ---------------- no weaker condition will do ----------------

  /** Two checks that take the lock in the opposite order of their clock readings: the earlier reading
      misses failures that the later one dropped. */
  lemma OutOfOrderChecksDiffer(key: Key)
    ensures !SameAnswers(map[key := Repeat(0, MAX_FAILURES)], [Check(key, WINDOW + 1), Check(key, WINDOW)])
  {
    var stamps: Stamps := map[key := Repeat(0, MAX_FAILURES)];
    var late, early := Check(key, WINDOW + 1), Check(key, WINDOW);
    RepeatDropped(0, MAX_FAILURES, 1);
    RepeatSince(0, MAX_FAILURES, 0);
    TwoChecks(stamps, late, early, true);
    TwoChecks(stamps, late, early, false);
    assert At(Next(stamps, late, true), key) == [] && Since([], 0) == [];
    assert Answers(stamps, [late, early], true)[1] == false;
    assert Answers(stamps, [late, early], false)[1] == true;
  }

  lemma TwoChecks(stamps: Stamps, a: Event, b: Event, prunes: bool)
    requires a.Check? && b.Check?
    ensures Answers(stamps, [a, b], prunes) == FirstAnswer(stamps, a) + FirstAnswer(Next(stamps, a, prunes), b)
  {
    var after := Next(stamps, a, prunes);
    assert [a, b][1..] == [b] && [b][1..] == [];
    assert Answers(Next(after, b, prunes), [], prunes) == [];
    assert Answers(after, [b], prunes) == FirstAnswer(after, b);
  }

  /** The checks and successes among the events: what is left to chance are the failures. */
  function Pattern(events: seq<Event>): seq<Event> {
    if events == [] then []
    else (if events[0].Fail? then [] else [events[0]]) + Pattern(events[1..])
  }

  predicate NoFailures(events: seq<Event>) {
    forall i :: 0 <= i < |events| ==> !events[i].Fail?
  }

  lemma {:induction false} PatternAppend(a: seq<Event>, b: seq<Event>)
    ensures Pattern(a + b) == Pattern(a) + Pattern(b)
  {
    if a == [] {
      assert a + b == b;
      assert [] + Pattern(b) == Pattern(b);
    } else {
      PatternAppend(a[1..], b);
      assert (a + b)[0] == a[0] && (a + b)[1..] == a[1..] + b;
      JoinAssociates(if a[0].Fail? then [] else [a[0]], Pattern(a[1..]), Pattern(b));
    }
  }

  lemma {:induction false} PatternOfPattern(events: seq<Event>)
    requires NoFailures(events)
    ensures Pattern(events) == events
  {
    if events != [] {
      PatternOfPattern(events[1..]);
    }
  }

  lemma {:induction false} OrderedPattern(events: seq<Event>, last: map<Key, int>)
    ensures Ordered(Pattern(events), last) <==> Ordered(events, last)
    ensures NoFailures(Pattern(events))
    decreases |events|
  {
    if events != [] {
      var e := events[0];
      OrderedPattern(events[1..], LastAfter(e, last));
      if !e.Fail? {
        Uncons(e, Pattern(events[1..]));
      } else {
        assert [] + Pattern(events[1..]) == Pattern(events[1..]);
      }
    }
  }

  /** Events i and j are checks of one client, out of order, with nothing of that client between; i is -1
      for the check recorded in `last`. */
  predicate Swapped(events: seq<Event>, last: map<Key, int>, i: int, j: int) {
    && -1 <= i < j < |events| && events[j].Check?
    && (forall m :: i < m < j ==> events[m].key != events[j].key)
    && (if i == -1 then events[j].key in last && events[j].now < last[events[j].key]
        else events[i].Check? && events[i].key == events[j].key && events[j].now < events[i].now)
  }

  lemma {:induction false} FindSwapped(events: seq<Event>, last: map<Key, int>) returns (i: int, j: int)
    requires NoFailures(events) && !Ordered(events, last)
    ensures Swapped(events, last, i, j)
    decreases |events|
  {
    var e := events[0];
    if e.Check? && e.key in last && e.now < last[e.key] {
      return -1, 0;
    }
    i, j := FindSwapped(events[1..], LastAfter(e, last));
    var key := events[1..][j].key;
    assert key == events[j + 1].key;
    assert forall m :: i < m < j ==> events[1..][m] == events[m + 1];
    if i >= 0 {
      assert events[1..][i] == events[i + 1];
      i := i + 1;
    } else if e.key == key {
      i := 0;
    }
    j := j + 1;
  }

  function Fails(key: Key, at: int, n: nat): seq<Event> {
    if n == 0 then [] else [Fail(key, at)] + Fails(key, at, n - 1)
  }

  function Repeat(at: int, n: nat): (r: seq<int>)
    ensures |r| == n
  {
    if n == 0 then [] else Repeat(at, n - 1) + [at]
  }

  lemma {:induction false} RepeatSince(at: int, n: nat, cutoff: int)
    requires at >= cutoff
    ensures Since(Repeat(at, n), cutoff) == Repeat(at, n)
  {
    if n > 0 {
      RepeatSince(at, n - 1, cutoff);
      SinceMore(Repeat(at, n - 1), at, cutoff);
    }
  }

  lemma {:induction false} RepeatDropped(at: int, n: nat, cutoff: int)
    requires at < cutoff
    ensures Since(Repeat(at, n), cutoff) == []
  {
    if n > 0 {
      RepeatDropped(at, n - 1, cutoff);
      SinceMore(Repeat(at, n - 1), at, cutoff);
    }
  }

  lemma {:induction false} PatternOfFails(key: Key, at: int, n: nat)
    ensures Pattern(Fails(key, at, n)) == []
  {
    if n > 0 {
      PatternOfFails(key, at, n - 1);
      Uncons(Fail(key, at), Fails(key, at, n - 1));
    }
  }

  lemma {:induction false} RunAppend(stamps: Stamps, a: seq<Event>, b: seq<Event>, prunes: bool)
    ensures RunAll(stamps, a + b, prunes) == RunAll(RunAll(stamps, a, prunes), b, prunes)
    decreases |a|
  {
    if a == [] {
      assert a + b == b;
    } else {
      RunAppend(Next(stamps, a[0], prunes), a[1..], b, prunes);
      assert (a + b)[0] == a[0] && (a + b)[1..] == a[1..] + b;
    }
  }

  lemma {:induction false} AnswersAppend(stamps: Stamps, a: seq<Event>, b: seq<Event>, prunes: bool)
    ensures Answers(stamps, a + b, prunes) == Answers(stamps, a, prunes) + Answers(RunAll(stamps, a, prunes), b, prunes)
    decreases |a|
  {
    if a == [] {
      assert a + b == b;
      assert [] + Answers(stamps, b, prunes) == Answers(stamps, b, prunes);
    } else {
      var next := Next(stamps, a[0], prunes);
      AnswersAppend(next, a[1..], b, prunes);
      assert (a + b)[0] == a[0] && (a + b)[1..] == a[1..] + b;
      assert Answers(stamps, a + b, prunes) == FirstAnswer(stamps, a[0]) + Answers(next, a[1..] + b, prunes);
      var later := Answers(RunAll(stamps, a, prunes), b, prunes);
      JoinAssociates(FirstAnswer(stamps, a[0]), Answers(next, a[1..], prunes), later);
    }
  }

  lemma {:induction false} AsManyAnswers(x: Stamps, y: Stamps, events: seq<Event>)
    ensures |Answers(x, events, true)| == |Answers(y, events, false)|
    decreases |events|
  {
    if events != [] {
      AsManyAnswers(Next(x, events[0], true), Next(y, events[0], false), events[1..]);
    }
  }

  lemma {:induction false} Untouched(stamps: Stamps, events: seq<Event>, key: Key, prunes: bool)
    requires forall i :: 0 <= i < |events| ==> events[i].key != key
    ensures At(RunAll(stamps, events, prunes), key) == At(stamps, key)
    decreases |events|
  {
    if events != [] {
      Untouched(Next(stamps, events[0], prunes), events[1..], key, prunes);
    }
  }

  lemma {:induction false} EmptyStays(stamps: Stamps, events: seq<Event>, key: Key, prunes: bool)
    requires NoFailures(events) && At(stamps, key) == []
    ensures At(RunAll(stamps, events, prunes), key) == []
    decreases |events|
  {
    if events != [] {
      EmptyStays(Next(stamps, events[0], prunes), events[1..], key, prunes);
    }
  }

  lemma {:induction false} AfterFails(stamps: Stamps, key: Key, at: int, n: nat, k: nat, prunes: bool)
    requires At(stamps, key) == Repeat(at, k)
    ensures At(RunAll(stamps, Fails(key, at, n), prunes), key) == Repeat(at, k + n)
    decreases n
  {
    if n > 0 {
      Uncons(Fail(key, at), Fails(key, at, n - 1));
      AfterFails(Next(stamps, Fail(key, at), prunes), key, at, n - 1, k + 1, prunes);
    }
  }

  /** Five failures, a check that no longer sees them, and events of other clients. */
  function Lead(before: seq<Event>, key: Key, at: int, check: Event, between: seq<Event>): seq<Event> {
    ((before + Fails(key, at, MAX_FAILURES)) + [check]) + between
  }

  lemma AfterLead(before: seq<Event>, key: Key, at: int, check: Event, between: seq<Event>, prunes: bool)
    requires NoFailures(before) && check.Check? && check.key == key && at < check.now - WINDOW
    requires forall i :: 0 <= i < |between| ==> between[i].key != key
    ensures At(RunAll(map[], Lead(before, key, at, check, between), prunes), key)
            == if prunes then [] else Repeat(at, MAX_FAILURES)
  {
    var failed := before + Fails(key, at, MAX_FAILURES);
    RunAppend(map[], failed + [check], between, prunes);
    RunAppend(map[], failed, [check], prunes);
    AfterFiveFails(before, key, at, prunes);
    AfterCheck(RunAll(map[], failed, prunes), key, at, check, prunes);
    Untouched(RunAll(RunAll(map[], failed, prunes), [check], prunes), between, key, prunes);
  }

  lemma AfterFiveFails(before: seq<Event>, key: Key, at: int, prunes: bool)
    requires NoFailures(before)
    ensures At(RunAll(map[], before + Fails(key, at, MAX_FAILURES), prunes), key) == Repeat(at, MAX_FAILURES)
  {
    RunAppend(map[], before, Fails(key, at, MAX_FAILURES), prunes);
    EmptyStays(map[], before, key, prunes);
    AfterFails(RunAll(map[], before, prunes), key, at, MAX_FAILURES, 0, prunes);
  }

  lemma AfterCheck(stamps: Stamps, key: Key, at: int, check: Event, prunes: bool)
    requires check.Check? && check.key == key && at < check.now - WINDOW
    requires At(stamps, key) == Repeat(at, MAX_FAILURES)
    ensures At(RunAll(stamps, [check], prunes), key) == if prunes then [] else Repeat(at, MAX_FAILURES)
  {
    RepeatDropped(at, MAX_FAILURES, check.now - WINDOW);
    assert [check][1..] == [];
    assert RunAll(stamps, [check], prunes) == Next(stamps, check, prunes);
  }

  /** After that lead a check back in the window of those failures is answered differently. */
  lemma LateCheckDiffers(before: seq<Event>, first: Event, between: seq<Event>, second: Event, later: seq<Event>)
    requires NoFailures(before) && first.Check? && second.Check? && first.key == second.key && second.now < first.now
    requires forall i :: 0 <= i < |between| ==> between[i].key != first.key
    ensures var lead := Lead(before, first.key, second.now - WINDOW, first, between);
            !SameAnswers(map[], lead + ([second] + later))
  {
    var key, at := first.key, second.now - WINDOW;
    var lead := Lead(before, key, at, first, between);
    AfterLead(before, key, at, first, between, true);
    AfterLead(before, key, at, first, between, false);
    AsManyAnswers(map[], map[], lead);
    RepeatSince(at, MAX_FAILURES, at);
    Uncons(second, later);
    AnswersAppend(map[], lead, [second] + later, true);
    AnswersAppend(map[], lead, [second] + later, false);
    var n := |Answers(map[], lead, true)|;
    assert Answers(map[], lead + ([second] + later), true)[n] == false;
    assert Answers(map[], lead + ([second] + later), false)[n] == true;
  }

  lemma PatternOfLead(before: seq<Event>, key: Key, at: int, check: Event, between: seq<Event>, rest: seq<Event>)
    requires NoFailures(before) && NoFailures(between) && NoFailures(rest) && check.Check?
    ensures Pattern(Lead(before, key, at, check, between) + rest) == before + [check] + between + rest
  {
    var fails := Fails(key, at, MAX_FAILURES);
    PatternAppend(Lead(before, key, at, check, between), rest);
    PatternAppend((before + fails) + [check], between);
    PatternAppend(before + fails, [check]);
    PatternAppend(before, fails);
    PatternOfFails(key, at, MAX_FAILURES);
    PatternOfPattern(before);
    PatternOfPattern([check]);
    PatternOfPattern(between);
    PatternOfPattern(rest);
    assert before + [] == before;
  }

  lemma UnorderedIsVisible(pattern: seq<Event>) returns (events: seq<Event>)
    requires NoFailures(pattern) && !Ordered(pattern, map[])
    ensures Pattern(events) == pattern && !SameAnswers(map[], events)
  {
    var i, j := FindSwapped(pattern, map[]);
    var before, between, later := pattern[..i], pattern[i + 1..j], pattern[j + 1..];
    LateCheckDiffers(before, pattern[i], between, pattern[j], later);
    PatternOfLead(before, pattern[i].key, pattern[j].now - WINDOW, pattern[i], between, [pattern[j]] + later);
    assert before + [pattern[i]] + between + ([pattern[j]] + later) == pattern;
    events := Lead(before, pattern[i].key, pattern[j].now - WINDOW, pattern[i], between) + ([pattern[j]] + later);
  }

  /** Checks and successes can be combined with any failures, over any table, without pruning ever changing
      an answer, exactly when the checks of each client are in order between its successes. */
  lemma PruningIsInvisibleIff(pattern: seq<Event>)
    requires NoFailures(pattern)
    ensures (forall stamps, events :: Pattern(events) == pattern ==> SameAnswers(stamps, events))
            <==> Ordered(pattern, map[])
  {
    if Ordered(pattern, map[]) {
      forall stamps, events | Pattern(events) == pattern ensures SameAnswers(stamps, events) {
        OrderedPattern(events, map[]);
        PruningIsInvisible(stamps, events);
      }
    } else {
      var events := UnorderedIsVisible(pattern);
      assert !SameAnswers(map[], events);
    }
  }
}
