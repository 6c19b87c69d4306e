/**
 Timed tasks.  The map is ordered by (time, number); callbacks are named by numbers, and a
 reading of the clock is a parameter.  `Timeline` is the value of a scheduler together with
 what has become of every task, and the class below keeps one as a ghost.
 */
module Schedules {
  import opened Common

  datatype Key = Key(time: int, number: nat)

  type Work = nat

  predicate Before(a: Key, b: Key) {
    a.time < b.time || (a.time == b.time && a.number < b.number)
  }

  /** One execution: the task, the reading of the clock, and the next number at that moment. */
  datatype Execution = Execution(key: Key, clock: int, next: nat)

  datatype Timeline = Timeline(
    tasks: map<Key, Work>, next: nat, issued: seq<Key>, ran: seq<Execution>, dropped: seq<Key>)

  datatype Event = Schedule(time: int, work: Work) | Cancel(id: Key) | RunOne(now: int)

  const EMPTY := Timeline(map[], 0, [], [], [])

  lemma {:induction false} FirstExists(keys: set<Key>)
    requires keys != {}
    ensures exists k :: k in keys && forall o :: o in keys && o != k ==> Before(k, o)
  {
    var a :| a in keys;
    var rest := keys - {a};
    if rest != {} {
      FirstExists(rest);
      var b :| b in rest && forall o :: o in rest && o != b ==> Before(b, o);
      if Before(a, b) {
        assert forall o :: o in keys && o != a ==> o in rest;
        assert a in keys && forall o :: o in keys && o != a ==> Before(a, o);
      } else {
        assert forall o :: o in keys && o != a ==> o in rest;
        assert b in keys && forall o :: o in keys && o != b ==> Before(b, o);
      }
    } else {
      assert forall o :: o in keys && o != a ==> o in rest;
      assert a in keys && forall o :: o in keys && o != a ==> Before(a, o);
    }
  }

  /** Where iteration over the map begins. */
  function First(keys: set<Key>): (k: Key)
    requires keys != {}
    ensures k in keys && forall o :: o in keys && o != k ==> Before(k, o)
  {
    FirstExists(keys);
    var k :| k in keys && forall o :: o in keys && o != k ==> Before(k, o);
    k
  }

  predicate Due(tasks: map<Key, Work>, now: int) {
    tasks.Keys != {} && First(tasks.Keys).time <= now
  }

  function Started(t: Timeline, now: int): Timeline
    requires Due(t.tasks, now)
  {
    var k := First(t.tasks.Keys);
    t.(tasks := t.tasks - {k}, ran := t.ran + [Execution(k, now, t.next)])
  }

  function Issued(t: Timeline, time: int, work: Work): Timeline {
    var id := Key(time, t.next);
    t.(tasks := if id in t.tasks then t.tasks else t.tasks[id := work], next := t.next + 1, issued := t.issued + [id])
  }

  function Cancelled(t: Timeline, id: Key): Timeline {
    if id in t.tasks then t.(tasks := t.tasks - {id}, dropped := t.dropped + [id]) else t
  }

  function Step(t: Timeline, e: Event): Timeline {
    match e
    case Schedule(time, work) => Issued(t, time, work)
    case Cancel(id) => Cancelled(t, id)
    case RunOne(now) => if Due(t.tasks, now) then Started(t, now) else t
  }

  function Run(t: Timeline, es: seq<Event>): Timeline {
    if es == [] then t else Step(Run(t, es[..|es| - 1]), es[|es| - 1])
  }

  // ----- what every step keeps -----

  function KeysOf(ran: seq<Execution>): seq<Key> {
    seq(|ran|, i requires 0 <= i < |ran| => ran[i].key)
  }

  predicate Numbered(t: Timeline) {
    t.next == |t.issued| && forall n :: 0 <= n < |t.issued| ==> t.issued[n].number == n
  }

  /** Every task ever scheduled is in one place: waiting, run or cancelled. */
  predicate Accounted(t: Timeline) {
    multiset(t.tasks.Keys) + multiset(KeysOf(t.ran)) + multiset(t.dropped) == multiset(t.issued)
  }

  predicate Timely(t: Timeline) {
    forall i :: 0 <= i < |t.ran| ==> t.ran[i].key.time <= t.ran[i].clock
  }

  /** `k` comes after the task of execution `x`, or was scheduled later than it ran. */
  predicate After(x: Execution, k: Key) {
    Before(x.key, k) || k.number >= x.next
  }

  predicate Ordered(t: Timeline) {
    && (forall i :: 0 <= i < |t.ran| ==> t.ran[i].key.number < t.ran[i].next <= t.next)
    && (forall i, j :: 0 <= i < j < |t.ran| ==> After(t.ran[i], t.ran[j].key))
    && (forall i, k :: 0 <= i < |t.ran| && k in t.tasks ==> After(t.ran[i], k))
    && (forall k :: k in t.tasks ==> k.number < t.next)
  }

  predicate Kept(t: Timeline) {
    Numbered(t) && Accounted(t) && Timely(t) && Ordered(t)
  }

  lemma KeysOfAppend(ran: seq<Execution>, x: Execution)
    ensures KeysOf(ran + [x]) == KeysOf(ran) + [x.key]
  {
  }

  lemma StartedAccounts(t: Timeline, now: int)
    requires Accounted(t) && Due(t.tasks, now)
    ensures Accounted(Started(t, now))
  {
    var k := First(t.tasks.Keys);
    var u := Started(t, now);
    KeysOfAppend(t.ran, Execution(k, now, t.next));
    hide KeysOf, Due;
    assert u.tasks.Keys == t.tasks.Keys - {k};
    assert multiset(t.tasks.Keys) == multiset(u.tasks.Keys) + multiset{k};
    assert multiset(KeysOf(u.ran)) == multiset(KeysOf(t.ran)) + multiset{k};
  }

  lemma StartedOrders(t: Timeline, now: int)
    requires Ordered(t) && Timely(t) && Due(t.tasks, now)
    ensures Ordered(Started(t, now)) && Timely(Started(t, now))
  {
  }

  lemma IssuedAccounts(t: Timeline, time: int, work: Work)
    requires Accounted(t) && Key(time, t.next) !in t.tasks
    ensures Accounted(Issued(t, time, work))
  {
    var id := Key(time, t.next);
    var u := Issued(t, time, work);
    hide KeysOf;
    assert u.tasks.Keys == t.tasks.Keys + {id};
    assert multiset(u.tasks.Keys) == multiset(t.tasks.Keys) + multiset{id};
    assert multiset(u.issued) == multiset(t.issued) + multiset{id};
  }

  lemma CancelledAccounts(t: Timeline, id: Key)
    requires Accounted(t)
    ensures Accounted(Cancelled(t, id))
  {
    var u := Cancelled(t, id);
    hide KeysOf;
    if id in t.tasks {
      assert u.tasks.Keys == t.tasks.Keys - {id};
      assert multiset(t.tasks.Keys) == multiset(u.tasks.Keys) + multiset{id};
      assert multiset(u.dropped) == multiset(t.dropped) + multiset{id};
    }
  }

  lemma IssuedKeeps(t: Timeline, time: int, work: Work)
    requires Kept(t)
    ensures Kept(Issued(t, time, work))
  {
    IssuedAccounts(t, time, work);
    hide Accounted, Before;
  }

  lemma CancelledKeeps(t: Timeline, id: Key)
    requires Kept(t)
    ensures Kept(Cancelled(t, id))
  {
    CancelledAccounts(t, id);
    hide Accounted, Before, After;
  }

  lemma StartedKeeps(t: Timeline, now: int)
    requires Kept(t) && Due(t.tasks, now)
    ensures Kept(Started(t, now))
  {
    StartedAccounts(t, now);
    StartedOrders(t, now);
    hide Accounted, Timely, Ordered, Due;
  }

  lemma IssuesAreFresh(t: Timeline, time: int)
    requires Kept(t)
    ensures Key(time, t.next) !in t.tasks
  {
  }

  lemma StepKeeps(t: Timeline, e: Event)
    requires Kept(t)
    ensures Kept(Step(t, e))
  {
    hide Kept, Issued, Cancelled, Started, Due;
    match e
    case Schedule(time, work) => IssuedKeeps(t, time, work);
    case Cancel(id) => CancelledKeeps(t, id);
    case RunOne(now) => if Due(t.tasks, now) { StartedKeeps(t, now); }
  }

  lemma {:induction false} RunKeeps(es: seq<Event>)
    ensures Kept(Run(EMPTY, es))
  {
    if es != [] {
      RunKeeps(es[..|es| - 1]);
      hide Kept, Step;
      StepKeeps(Run(EMPTY, es[..|es| - 1]), es[|es| - 1]);
    }
  }

  // ----- what that means for every run -----

  lemma {:induction false} NumberedOnce(issued: seq<Key>, n: nat)
    requires forall m :: 0 <= m < |issued| ==> issued[m].number == m
    requires n < |issued|
    ensures multiset(issued)[issued[n]] == 1
  {
    var k := issued[n];
    var before, after := issued[..n], issued[n + 1..];
    assert issued == before + [k] + after;
    assert k !in before && k !in after;
    assert multiset(issued) == multiset(before) + multiset{k} + multiset(after);
  }

  function Occurs(b: bool): nat {
    if b then 1 else 0
  }

  /** In every run each scheduled task waits, has run, or was cancelled: one of them, once. */
  lemma ExactlyOneFate(es: seq<Event>, n: nat)
    requires n < |Run(EMPTY, es).issued|
    ensures var t := Run(EMPTY, es);
            var k := t.issued[n];
            Occurs(k in t.tasks) + multiset(KeysOf(t.ran))[k] + multiset(t.dropped)[k] == 1
  {
    RunKeeps(es);
    var t := Run(EMPTY, es);
    NumberedOnce(t.issued, n);
    hide Run, KeysOf, Timely, Ordered;
    var k := t.issued[n];
    assert multiset(t.tasks.Keys)[k] == Occurs(k in t.tasks);
  }

  lemma NoneEarly(es: seq<Event>, i: nat)
    requires i < |Run(EMPTY, es).ran|
    ensures Run(EMPTY, es).ran[i].key.time <= Run(EMPTY, es).ran[i].clock
  {
    RunKeeps(es);
    hide Run, Accounted, Ordered, Numbered;
  }

  /** A task that runs before a smaller one ran before that one was scheduled. */
  lemma NoneOvertaken(es: seq<Event>, i: nat, j: nat)
    requires i < j < |Run(EMPTY, es).ran|
    ensures var t := Run(EMPTY, es);
            Before(t.ran[i].key, t.ran[j].key) || t.ran[j].key.number >= t.ran[i].next > t.ran[i].key.number
  {
    RunKeeps(es);
    hide Run, Accounted, Timely, Numbered;
  }

  lemma EqualTimesInOrder(es: seq<Event>, i: nat, j: nat)
    requires i < j < |Run(EMPTY, es).ran|
    requires Run(EMPTY, es).ran[i].key.time == Run(EMPTY, es).ran[j].key.time
    ensures Run(EMPTY, es).ran[i].key.number < Run(EMPTY, es).ran[j].key.number
  {
    NoneOvertaken(es, i, j);
    hide Run;
  }

  /** When a task runs, whatever waits comes after it. */
  lemma RunsTheFirst(es: seq<Event>, now: int, k: Key)
    requires Due(Run(EMPTY, es).tasks, now)
    requires k in Step(Run(EMPTY, es), RunOne(now)).tasks
    ensures var u := Step(Run(EMPTY, es), RunOne(now));
            |u.ran| == |Run(EMPTY, es).ran| + 1 && Before(u.ran[|u.ran| - 1].key, k)
  {
    hide Run;
  }

  /** Tasks scheduled in the order of their times, as `enqueue` does, run in that order. */
  lemma EnqueuedRunInOrder(es: seq<Event>, i: nat, j: nat)
    requires i < j < |Run(EMPTY, es).ran|
    requires forall m, n :: 0 <= m < n < |Run(EMPTY, es).issued| ==>
                              Run(EMPTY, es).issued[m].time <= Run(EMPTY, es).issued[n].time
    ensures Run(EMPTY, es).ran[i].key.number < Run(EMPTY, es).ran[j].key.number
  {
    NoneOvertaken(es, i, j);
    RanWasIssued(es, i);
    RanWasIssued(es, j);
    hide Run;
  }

  lemma RanWasIssued(es: seq<Event>, i: nat)
    requires i < |Run(EMPTY, es).ran|
    ensures var t := Run(EMPTY, es);
            var k := t.ran[i].key;
            k.number < |t.issued| && t.issued[k.number] == k
  {
    RunKeeps(es);
    hide Run, Timely, Ordered;
    var t := Run(EMPTY, es);
    var k := t.ran[i].key;
    assert KeysOf(t.ran)[i] == k;
    hide KeysOf;
    assert k in multiset(KeysOf(t.ran));
    assert k in multiset(t.issued);
    assert k in t.issued;
  }

  // ----- draining -----

  /** What `run` does when the readings of the clock are `clock(i)`, `clock(i + 1)`, ... */
  function Drain(t: Timeline, clock: nat -> int, i: nat): Timeline
    decreases |t.tasks|
  {
    if Due(t.tasks, clock(i)) then
      Shrinks(t, clock(i));
      Drain(Started(t, clock(i)), clock, i + 1)
    else t
  }

  lemma Shrinks(t: Timeline, now: int)
    requires Due(t.tasks, now)
    ensures |Started(t, now).tasks| < |t.tasks|
  {
    assert Started(t, now).tasks.Keys == t.tasks.Keys - {First(t.tasks.Keys)};
    assert |Started(t, now).tasks.Keys| < |t.tasks.Keys|;
  }

  ghost predicate Advances(clock: nat -> int) {
    forall i, j :: 0 <= i < j ==> clock(i) <= clock(j)
  }

  /** `run` returns with every task done that was due when it was called, and no other change. */
  lemma {:induction false} DrainRunsAllDue(t: Timeline, clock: nat -> int, i: nat)
    requires Advances(clock)
    ensures var u := Drain(t, clock, i);
            && (forall k :: k in u.tasks ==> k.time > clock(i))
            && (forall k :: k in u.tasks ==> k in t.tasks && u.tasks[k] == t.tasks[k])
            && u.next == t.next && u.issued == t.issued && u.dropped == t.dropped
            && t.ran <= u.ran
    decreases |t.tasks|
  {
    if Due(t.tasks, clock(i)) {
      Shrinks(t, clock(i));
      DrainRunsAllDue(Started(t, clock(i)), clock, i + 1);
      assert clock(i) <= clock(i + 1);
    }
  }

  lemma {:induction false} DrainKeeps(t: Timeline, clock: nat -> int, i: nat)
    requires Kept(t)
    ensures Kept(Drain(t, clock, i))
    ensures forall m :: |t.ran| <= m < |Drain(t, clock, i).ran| ==> Drain(t, clock, i).ran[m].next == t.next
    ensures |t.ran| <= |Drain(t, clock, i).ran|
    decreases |t.tasks|
  {
    if Due(t.tasks, clock(i)) {
      Shrinks(t, clock(i));
      StepKeeps(t, RunOne(clock(i)));
      DrainKeeps(Started(t, clock(i)), clock, i + 1);
      DrainKeepsHistory(Started(t, clock(i)), clock, i + 1);
    }
  }

  lemma {:induction false} DrainKeepsHistory(t: Timeline, clock: nat -> int, i: nat)
    ensures t.ran <= Drain(t, clock, i).ran
    decreases |t.tasks|
  {
    if Due(t.tasks, clock(i)) {
      Shrinks(t, clock(i));
      DrainKeepsHistory(Started(t, clock(i)), clock, i + 1);
    }
  }

  /** The tasks one call of `run` executes are executed in ascending order. */
  lemma DrainAscends(t: Timeline, clock: nat -> int, i: nat, m: nat, n: nat)
    requires Kept(t)
    requires |t.ran| <= m < n < |Drain(t, clock, i).ran|
    ensures Before(Drain(t, clock, i).ran[m].key, Drain(t, clock, i).ran[n].key)
  {
    DrainKeeps(t, clock, i);
    DrainIssuesNothing(t, clock, i);
    hide Drain, Accounted, Timely, Numbered;
  }

  lemma {:induction false} DrainIssuesNothing(t: Timeline, clock: nat -> int, i: nat)
    ensures Drain(t, clock, i).next == t.next
    decreases |t.tasks|
  {
    if Due(t.tasks, clock(i)) {
      Shrinks(t, clock(i));
      DrainIssuesNothing(Started(t, clock(i)), clock, i + 1);
    }
  }
}

module SchedulerObjects {
  import opened Common
  import opened Schedules

  class Scheduler {
    var tasks: map<Key, Work>
    var nextTaskNumber: nat
    ghost var past: Timeline

    ghost predicate Valid()
      reads this
    {
      tasks == past.tasks && nextTaskNumber == past.next && Kept(past)
    }

    constructor ()
      ensures Valid() && past == EMPTY
    {
      tasks := map[];
      nextTaskNumber := 0;
      past := EMPTY;
      RunKeeps([]);
    }

    method Schedule(time: int, work: Work) returns (id: Key)
      requires Valid()
      modifies this
      ensures Valid()
      ensures past == Step(old(past), Event.Schedule(time, work))
      ensures id == Key(time, old(nextTaskNumber)) && id !in old(tasks) && tasks == old(tasks)[id := work]
    {
      StepKeeps(past, Event.Schedule(time, work));
      IssuesAreFresh(past, time);
      hide Kept;
      var number := nextTaskNumber;
      nextTaskNumber := nextTaskNumber + 1;
      id := Key(time, number);
      if id !in tasks { tasks := tasks[id := work]; }
      past := Step(past, Event.Schedule(time, work));
    }

    method Cancel(id: Key) returns (erased: bool)
      requires Valid()
      modifies this
      ensures Valid()
      ensures past == Step(old(past), Event.Cancel(id))
      ensures erased == (id in old(tasks)) && tasks == old(tasks) - {id} && nextTaskNumber == old(nextTaskNumber)
    {
      StepKeeps(past, Event.Cancel(id));
      hide Kept;
      past := Step(past, Event.Cancel(id));
      erased := id in tasks;
      tasks := tasks - {id};
    }

    /** Takes the first task off the map when its time has come; the caller executes it. */
    method Dequeue(now: int) returns (work: Option<Work>)
      requires Valid()
      modifies this
      ensures Valid()
      ensures past == Step(old(past), RunOne(now)) && nextTaskNumber == old(nextTaskNumber)
      ensures work.None? <==> forall k :: k in old(tasks) ==> k.time > now
      ensures work.None? ==> tasks == old(tasks)
      ensures work.Some? ==> Due(old(tasks), now)
      ensures work.Some? ==> work.value == old(tasks)[First(old(tasks).Keys)]
    {
      StepKeeps(past, RunOne(now));
      DueMeans(past, now);
      hide Kept, First, Due;
      past := Step(past, RunOne(now));
      if tasks.Keys == {} { return None; }
      var it := First(tasks.Keys);
      if it.time > now { return None; }
      work := Some(tasks[it]);
      tasks := tasks - {it};
    }

    /** `run`: executes tasks, in the order of the result, until none is due. */
    method Run(clock: nat -> int) returns (works: seq<Work>)
      requires Valid()
      modifies this
      ensures Valid()
      ensures past == Drain(old(past), clock, 0)
      ensures Executed(old(past), past, works)
    {
      works := [];
      var n, more := 0, true;
      while more
        invariant Valid()
        invariant if more then Drain(past, clock, n) == Drain(old(past), clock, 0)
                  else past == Drain(old(past), clock, 0)
        invariant Executed(old(past), past, works)
        decreases |tasks| + if more then 1 else 0
      {
        hide *;
        ghost var was := past;
        ValidMeans();
        DrainStep(was, clock, n);
        var work := Dequeue(clock(n));
        ValidMeans();
        match work {
          case None =>
            more := false;
          case Some(w) =>
            ExecutesOneMore(old(past), was, clock(n), w, works);
            works := works + [w];
        }
        n := n + 1;
      }
    }

    lemma ValidMeans()
      requires Valid()
      ensures tasks == past.tasks
    {
    }
  }

  /** The callbacks of the executions between two moments, in order. */
  predicate Executed(before: Timeline, after: Timeline, works: seq<Work>) {
    && before.ran <= after.ran && |after.ran| == |before.ran| + |works|
    && (forall k :: k in after.tasks ==> k in before.tasks && after.tasks[k] == before.tasks[k])
    && forall m :: 0 <= m < |works| ==>
         && after.ran[|before.ran| + m].key in before.tasks
         && works[m] == before.tasks[after.ran[|before.ran| + m].key]
  }

  lemma DueMeans(t: Timeline, now: int)
    ensures Due(t.tasks, now) <==> exists k :: k in t.tasks && k.time <= now
    ensures Due(t.tasks, now) <==> t.tasks.Keys != {} && First(t.tasks.Keys).time <= now
    ensures Due(t.tasks, now) ==> First(t.tasks.Keys) in t.tasks
  {
  }

  lemma DrainStep(t: Timeline, clock: nat -> int, n: nat)
    ensures if Due(t.tasks, clock(n)) then
              Step(t, Event.RunOne(clock(n))) == Started(t, clock(n))
              && Drain(t, clock, n) == Drain(Started(t, clock(n)), clock, n + 1)
              && |Started(t, clock(n)).tasks| < |t.tasks|
            else Drain(t, clock, n) == t && Step(t, Event.RunOne(clock(n))) == t
    ensures Due(t.tasks, clock(n)) <==> exists k :: k in t.tasks && k.time <= clock(n)
  {
    if Due(t.tasks, clock(n)) { Shrinks(t, clock(n)); }
  }

  lemma ExecutesOneMore(before: Timeline, t: Timeline, now: int, w: Work, works: seq<Work>)
    requires Executed(before, t, works) && Due(t.tasks, now)
    requires w == t.tasks[First(t.tasks.Keys)]
    ensures Executed(before, Started(t, now), works + [w])
  {
    var u := Started(t, now);
    var k := First(t.tasks.Keys);
    assert k in t.tasks;
    hide Due, First;
    forall m | 0 <= m < |works| + 1
      ensures && u.ran[|before.ran| + m].key in before.tasks
              && (works + [w])[m] == before.tasks[u.ran[|before.ran| + m].key]
    {
      if m == |works| {
        assert u.ran[|t.ran|].key == k && k in before.tasks;
      } else {
        assert (works + [w])[m] == works[m];
        assert u.ran[|before.ran| + m] == t.ran[|before.ran| + m];
      }
    }
    assert before.ran <= t.ran <= u.ran;
    assert |u.ran| == |before.ran| + |works + [w]|;
    assert forall o :: o in u.tasks ==> o in t.tasks && u.tasks[o] == t.tasks[o];
  }
}
