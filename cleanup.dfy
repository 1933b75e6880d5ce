/** The process-wide cleanup stack of the build tools
    (packages/build-tools/src/dax.ts:11-97): teardown callbacks registered
    with `addCleanup`, their `remove` handles, the drain performed by
    `runCleanupAndExit`, and the signal handlers installed by `bindCleanup`.

    A callback is an abstract effect (`Action`): when it runs it may register
    further callbacks and it either returns or throws.  What happened is
    recorded in a trace of events.  `Drain` is the reference semantics of the
    drain loop; the `CleanupStack` class is proved against it. */
module Cleanup {
  import opened Common

  datatype Signal = SIGINT | SIGTERM

  /** The two kill controllers: commands built before cleanup starts are tied
      to `killController`, those built while it runs to `killControllerCleanup`. */
  datatype Controller = KillController | KillControllerCleanup

  /** What reaches the handlers that `bindCleanup` installs. */
  datatype ProcessEvent = SigInt | SigTerm | UncaughtException | UnhandledRejection

  /** A teardown callback: a named effect that, when it runs, registers the
      callbacks `pushes` in order and then returns or (when `throws`) throws. */
  datatype Action = Action(tag: string, pushes: seq<Action>, throws: bool)

  /** A callback on the stack, with the identity of its `addCleanup` call. */
  datatype Slot = Slot(id: nat, action: Action)

  datatype Event =
    | Signalled(controller: Controller, signal: Signal)
    | Ran(id: nat, tag: string)       // a callback started
    | Failed(id: nat, tag: string)    // it threw ("Cleanup failed:" in the drain)
    | Exited(code: int)               // `process.exit(code)`

  /** The `cleaned`/`removed` flags of one function entry: never both set. */
  datatype Status = Pending | Cleaned | Removed

  datatype Entry = Entry(action: Action, status: Status)

  /** A promise passed to `addCleanup`: still unsettled, settled before any
      `remove`, or withdrawn by `remove`. */
  datatype PromiseStatus = Waiting | Settled | Withdrawn

  /** POSIX signal numbers of SIGINT and SIGTERM. */
  const SigIntNumber := 2
  const SigTermNumber := 15

  /** The exit code each `bindCleanup` handler passes to `runCleanupAndExit`:
      never success, a signal reported the shell's way as 128 plus its
      number, a fault as 1. */
  function ExitCodeFor(e: ProcessEvent): (code: int)
    ensures code != 0
    ensures e == SigInt ==> code == 128 + SigIntNumber
    ensures e == SigTerm ==> code == 128 + SigTermNumber
    ensures e !in {SigInt, SigTerm} ==> code == 1
  {
    match e
    case SigInt => 130
    case SigTerm => 143
    case UncaughtException => 1
    case UnhandledRejection => 1
  }

  /** Number of callbacks in `acts`, counting everything they register. */
  function Weight(acts: seq<Action>): nat
    decreases acts
  {
    if acts == [] then 0 else 1 + Weight(acts[0].pushes) + Weight(acts[1..])
  }

  /** Number of callbacks that running all of `acts` registers, transitively. */
  function Spawned(acts: seq<Action>): nat
    decreases acts
  {
    if acts == [] then 0 else Weight(acts[0].pushes) + Spawned(acts[1..])
  }

  function Actions(stack: seq<Slot>): (r: seq<Action>)
    ensures |r| == |stack| && forall i :: 0 <= i < |stack| ==> r[i] == stack[i].action
  {
    seq(|stack|, i requires 0 <= i < |stack| => stack[i].action)
  }

  function Tags(stack: seq<Slot>): (r: seq<string>)
    ensures |r| == |stack| && forall i :: 0 <= i < |stack| ==> r[i] == stack[i].action.tag
  {
    seq(|stack|, i requires 0 <= i < |stack| => stack[i].action.tag)
  }

  /** The slots that `acts` get when registered one after the other, starting
      with identity `next`. */
  function Numbered(acts: seq<Action>, next: nat): (r: seq<Slot>)
    ensures |r| == |acts| && forall i :: 0 <= i < |acts| ==> r[i] == Slot(next + i, acts[i])
  {
    seq(|acts|, i requires 0 <= i < |acts| => Slot(next + i, acts[i]))
  }

  /** What running one callback records. */
  function Outcome(s: Slot): seq<Event> {
    [Ran(s.id, s.action.tag)] + (if s.action.throws then [Failed(s.id, s.action.tag)] else [])
  }

  lemma {:induction false} WeightAppend(a: seq<Action>, b: seq<Action>)
    ensures Weight(a + b) == Weight(a) + Weight(b)
    ensures Spawned(a + b) == Spawned(a) + Spawned(b)
    decreases a
  {
    if a == [] {
      assert a + b == b;
    } else {
      assert (a + b)[0] == a[0] && (a + b)[1..] == a[1..] + b;
      WeightAppend(a[1..], b);
    }
  }

  lemma {:induction false} WeightCounts(acts: seq<Action>)
    ensures Weight(acts) == |acts| + Spawned(acts)
    decreases acts
  {
    if acts != [] {
      WeightCounts(acts[1..]);
    }
  }

  lemma ActionsAppend(a: seq<Slot>, b: seq<Slot>)
    ensures Actions(a + b) == Actions(a) + Actions(b)
  {
  }

  /** Popping the top callback and registering what it pushes leaves one
      callback fewer to run. */
  lemma {:induction false} PopWeight(stack: seq<Slot>, next: nat)
    requires stack != []
    ensures var top := stack[|stack| - 1];
      && Weight(Actions(stack[..|stack| - 1] + Numbered(top.action.pushes, next))) + 1 == Weight(Actions(stack))
      && Spawned(Actions(stack[..|stack| - 1] + Numbered(top.action.pushes, next))) + |top.action.pushes| == Spawned(Actions(stack))
  {
    var below, top := stack[..|stack| - 1], stack[|stack| - 1];
    var pushed := Numbered(top.action.pushes, next);
    assert stack == below + [top];
    ActionsAppend(below, [top]);
    ActionsAppend(below, pushed);
    assert Actions(pushed) == top.action.pushes;
    assert Actions([top]) == [top.action];
    assert [top.action][1..] == [];
    WeightAppend(Actions(below), [top.action]);
    WeightAppend(Actions(below), top.action.pushes);
    WeightCounts(top.action.pushes);
  }

  /** The drain loop (dax.ts:74-84) as a function: pop the top callback, run
      it (it may register more callbacks, which land on top and get the next
      identities), record a failure and carry on, until the stack is empty. */
  function Drain(stack: seq<Slot>, next: nat): seq<Event>
    decreases Weight(Actions(stack))
  {
    if stack == [] then []
    else
      var top := stack[|stack| - 1];
      PopWeight(stack, next);
      Outcome(top) + Drain(stack[..|stack| - 1] + Numbered(top.action.pushes, next), next + |top.action.pushes|)
  }

  /** Draining a stack runs the upper part completely, including everything
      it registers, before anything of the lower part: strict LIFO order. */
  lemma {:induction false} DrainAppend(below: seq<Slot>, above: seq<Slot>, next: nat, after: nat)
    requires after == next + Spawned(Actions(above))
    ensures Drain(below + above, next) == Drain(above, next) + Drain(below, after)
    decreases Weight(Actions(above))
  {
    if above == [] {
      assert below + above == below;
      assert Actions(above) == [];
      assert Drain(above, next) == [];
      assert after == next;
    } else {
      var top := above[|above| - 1];
      var rest := above[..|above| - 1] + Numbered(top.action.pushes, next);
      var p := |top.action.pushes|;
      assert after == next + p + Spawned(Actions(rest)) && Weight(Actions(rest)) < Weight(Actions(above)) by {
        PopWeight(above, next);
      }
      var later := next + p;
      DrainAppend(below, rest, later, after);
      DrainAppendStep(below, above, top, rest, next, later, after);
    }
  }

  /** The inductive step of `DrainAppend`: the top callback of `above` runs
      first either way, and what it leaves is drained as before. */
  lemma DrainAppendStep(below: seq<Slot>, above: seq<Slot>, top: Slot, rest: seq<Slot>, next: nat, later: nat, after: nat)
    requires above != [] && top == above[|above| - 1] && later == next + |top.action.pushes|
    requires rest == above[..|above| - 1] + Numbered(top.action.pushes, next)
    requires Drain(below + rest, later) == Drain(rest, later) + Drain(below, after)
    ensures Drain(below + above, next) == Drain(above, next) + Drain(below, after)
  {
    PopBelow(below, above, Numbered(top.action.pushes, next));
    DrainTopAs(below + above, next, top, below + rest, later);
    DrainTopAs(above, next, top, rest, later);
    Regroup(Outcome(top), Drain(rest, later), Drain(below, after));
  }

  /** One step of the drain, with what the popped callback leaves named `popped`. */
  lemma DrainTopAs(stack: seq<Slot>, next: nat, top: Slot, popped: seq<Slot>, later: nat)
    requires stack != [] && top == stack[|stack| - 1] && later == next + |top.action.pushes|
    requires popped == stack[..|stack| - 1] + Numbered(top.action.pushes, next)
    ensures Drain(stack, next) == Outcome(top) + Drain(popped, later)
  {
    DrainStep(stack, next);
  }

  /** Popping the top of `below + above` pops the top of `above`. */
  lemma PopBelow(below: seq<Slot>, above: seq<Slot>, pushed: seq<Slot>)
    requires above != []
    ensures (below + above)[|below + above| - 1] == above[|above| - 1]
    ensures (below + above)[..|below + above| - 1] + pushed == below + (above[..|above| - 1] + pushed)
  {
    var whole := below + above;
    assert whole[..|whole| - 1] == below + above[..|above| - 1];
  }

  lemma Regroup(o: seq<Event>, r: seq<Event>, b: seq<Event>)
    ensures o + (r + b) == (o + r) + b
  {
  }

  /** The reference order for callbacks that register nothing: each one's
      outcome, newest registration first. */
  function Unwound(stack: seq<Slot>): seq<Event> {
    if stack == [] then [] else Outcome(stack[|stack| - 1]) + Unwound(stack[..|stack| - 1])
  }

  predicate Leaves(stack: seq<Slot>) {
    forall i :: 0 <= i < |stack| ==> stack[i].action.pushes == []
  }

  lemma {:induction false} DrainLeaves(stack: seq<Slot>, next: nat)
    requires Leaves(stack)
    ensures Drain(stack, next) == Unwound(stack)
    decreases |stack|
  {
    if stack != [] {
      var below := stack[..|stack| - 1];
      assert below + Numbered([], next) == below;
      DrainLeaves(below, next);
    }
  }

  /** The tags of the callbacks that started, in order. */
  function RanTags(trace: seq<Event>): (r: seq<string>)
    ensures |r| <= |trace|
  {
    if trace == [] then []
    else (if trace[0].Ran? then [trace[0].tag] else []) + RanTags(trace[1..])
  }

  /** Running one callback starts exactly that callback, whether or not it throws. */
  lemma OutcomeRan(s: Slot)
    ensures RanTags(Outcome(s)) == [s.action.tag]
  {
    if s.action.throws {
      assert Outcome(s)[1..] == [Failed(s.id, s.action.tag)];
    }
  }

  lemma {:induction false} RanTagsAppend(a: seq<Event>, b: seq<Event>)
    ensures RanTags(a + b) == RanTags(a) + RanTags(b)
    decreases a
  {
    if a == [] {
      assert a + b == b;
    } else {
      assert (a + b)[0] == a[0] && (a + b)[1..] == a[1..] + b;
      RanTagsAppend(a[1..], b);
    }
  }

  /** Every leaf callback runs exactly once, in reverse registration order,
      whether or not some of them throw. */
  lemma {:induction false} UnwoundRunsAll(stack: seq<Slot>)
    ensures RanTags(Unwound(stack)) == Reverse(Tags(stack))
    decreases |stack|
  {
    if stack != [] {
      var top, below := stack[|stack| - 1], stack[..|stack| - 1];
      RanTagsAppend(Outcome(top), Unwound(below));
      UnwoundRunsAll(below);
      OutcomeRan(top);
      var t := Tags(stack);
      assert Tags(below) == t[..|t| - 1];
      ReverseLast(t);
    }
  }

  /** A callback that registers one leaf callback while being drained: that
      leaf runs right after it, before anything registered earlier. */
  lemma {:induction false} PushedRunsNext(below: seq<Slot>, s: Slot, leaf: Action, next: nat)
    requires s.action.pushes == [leaf] && leaf.pushes == []
    ensures Drain(below + [s], next) == Outcome(s) + Outcome(Slot(next, leaf)) + Drain(below, next + 1)
  {
    var n := Numbered([leaf], next);
    assert n == [Slot(next, leaf)];
    assert (below + [s])[..|below + [s]| - 1] == below;
    var after := below + n;
    assert after[..|after| - 1] + Numbered([], next + 1) == below;
  }

  /** The lines of `runCleanupAndExit` after its guard (dax.ts:70-87):
      SIGTERM to the first controller, the drain, SIGINT to the second
      controller, and the exit. */
  function Shutdown(stack: seq<Slot>, next: nat, code: int): seq<Event> {
    [Signalled(KillController, SIGTERM)] + Drain(stack, next) + [Signalled(KillControllerCleanup, SIGINT), Exited(code)]
  }

  /** The shutdown's events, recorded piece by piece after `told`. */
  lemma ShutdownAppends(told: seq<Event>, stack: seq<Slot>, next: nat, code: int)
    ensures told + [Signalled(KillController, SIGTERM)] + Drain(stack, next) + [Signalled(KillControllerCleanup, SIGINT), Exited(code)]
      == told + Shutdown(stack, next, code)
  {
  }

  /** With only leaf callbacks registered, a shutdown starts every one of
      them exactly once, newest first. */
  lemma ShutdownRuns(stack: seq<Slot>, next: nat, code: int)
    requires Leaves(stack)
    ensures RanTags(Shutdown(stack, next, code)) == Reverse(Tags(stack))
  {
    var d := Drain(stack, next);
    DrainLeaves(stack, next);
    UnwoundRunsAll(stack);
    RanTagsAppend([Signalled(KillController, SIGTERM)], d);
    RanTagsAppend([Signalled(KillController, SIGTERM)] + d, [Signalled(KillControllerCleanup, SIGINT), Exited(code)]);
  }

  /** The drain records callbacks starting and failing, and no signal. */
  lemma {:induction false} DrainUnsignalled(stack: seq<Slot>, next: nat)
    ensures forall i :: 0 <= i < |Drain(stack, next)| ==> Drain(stack, next)[i].Ran? || Drain(stack, next)[i].Failed?
    decreases Weight(Actions(stack))
  {
    if stack != [] {
      var top := stack[|stack| - 1];
      var later := next + |top.action.pushes|;
      var popped := stack[..|stack| - 1] + Numbered(top.action.pushes, next);
      DrainTopAs(stack, next, top, popped, later);
      PopWeight(stack, next);
      DrainUnsignalled(popped, later);
    }
  }

  /** Where the shutdown's events sit: SIGTERM first, the drain, then SIGINT
      to the cleanup controller and the exit. */
  lemma ShutdownShape(stack: seq<Slot>, next: nat, code: int)
    ensures var t, d := Shutdown(stack, next, code), Drain(stack, next);
      && |t| == |d| + 3
      && t[0] == Signalled(KillController, SIGTERM)
      && t[|d| + 1] == Signalled(KillControllerCleanup, SIGINT)
      && t[|d| + 2] == Exited(code)
      && forall i :: 1 <= i <= |d| ==> t[i].Ran? || t[i].Failed?
  {
    var d := Drain(stack, next);
    var t := Shutdown(stack, next, code);
    DrainUnsignalled(stack, next);
    forall i | 1 <= i <= |d| ensures t[i].Ran? || t[i].Failed? {
      assert t[i] == d[i - 1];
    }
  }

  /** `cleanups.indexOf(x)`. */
  function IndexOf(s: seq<nat>, x: nat): (i: int)
    ensures i == -1 <==> x !in s
    ensures 0 <= i ==> i < |s| && s[i] == x && x !in s[..i]
  {
    if s == [] then -1
    else if s[0] == x then 0
    else
      var j := IndexOf(s[1..], x);
      assert s[1..][..if j < 0 then 0 else j] == s[1..1 + if j < 0 then 0 else j];
      if j < 0 then -1 else j + 1
  }

  /** `const index = cleanups.indexOf(x); if(index != -1) cleanups.splice(index, 1);` */
  function Erase(s: seq<nat>, x: nat): (r: seq<nat>)
    ensures x !in s ==> r == s
    ensures x in s ==> |r| == |s| - 1
    ensures forall y :: y in r ==> y in s
    ensures forall y :: y in s && y != x ==> y in r
  {
    var i := IndexOf(s, x);
    if i < 0 then s
    else
      assert s == s[..i] + [x] + s[i + 1..];
      s[..i] + s[i + 1..]
  }

  function Range(lo: nat, n: nat): (r: seq<nat>)
    ensures |r| == n && forall i :: 0 <= i < n ==> r[i] == lo + i
  {
    seq(n, i requires 0 <= i < n => lo + i)
  }

  function Registered(acts: seq<Action>): (r: seq<Entry>)
    ensures |r| == |acts| && forall i :: 0 <= i < |acts| ==> r[i] == Entry(acts[i], Pending)
  {
    seq(|acts|, i requires 0 <= i < |acts| => Entry(acts[i], Pending))
  }

  predicate Distinct(s: seq<nat>) {
    forall i, j :: 0 <= i < j < |s| ==> s[i] != s[j]
  }

  /** Erasing the newest identity of a stack without duplicates pops it. */
  lemma EraseLast(s: seq<nat>)
    requires Distinct(s) && s != []
    ensures Erase(s, s[|s| - 1]) == s[..|s| - 1]
  {
    var i := IndexOf(s, s[|s| - 1]);
    assert i == |s| - 1;
    assert s[..i] + s[i + 1..] == s[..|s| - 1];
  }

  /** Erasing from a stack without duplicates removes exactly that identity. */
  lemma EraseDistinct(s: seq<nat>, x: nat)
    requires Distinct(s)
    ensures Distinct(Erase(s, x))
    ensures forall y :: y in Erase(s, x) <==> y in s && y != x
  {
    var i := IndexOf(s, x);
    if i >= 0 {
      var r := s[..i] + s[i + 1..];
      assert forall k :: 0 <= k < |r| ==> r[k] == if k < i then s[k] else s[k + 1];
      forall k | 0 <= k < |r|
        ensures r[k] != x
      {
        if k < i { assert r[k] == s[k]; } else { assert r[k] == s[k + 1]; }
      }
    }
  }

  /** The stack holds distinct identities of pending entries. */
  ghost predicate StackHolds(entries: seq<Entry>, stack: seq<nat>) {
    && (forall i :: 0 <= i < |stack| ==> stack[i] < |entries| && entries[stack[i]].status == Pending)
    && Distinct(stack)
  }

  /** Every pending entry is on the stack. */
  ghost predicate AllStacked(entries: seq<Entry>, stack: seq<nat>) {
    forall id :: 0 <= id < |entries| && entries[id].status == Pending ==> id in stack
  }

  /** Every callback that started is marked cleaned. */
  ghost predicate StartedCleaned(entries: seq<Entry>, trace: seq<Event>) {
    forall i :: 0 <= i < |trace| && trace[i].Ran? ==> trace[i].id < |entries| && entries[trace[i].id].status == Cleaned
  }

  /** No callback started twice. */
  ghost predicate StartedOnce(trace: seq<Event>) {
    forall i, j :: 0 <= i < j < |trace| && trace[i].Ran? && trace[j].Ran? ==> trace[i].id != trace[j].id
  }

  /** Marking a pending entry removed and erasing it from the stack keeps
      the stack made of distinct pending entries, every pending entry on
      it, and every started callback marked cleaned. */
  lemma RemoveKeeps(entries: seq<Entry>, stack: seq<nat>, trace: seq<Event>, id: nat)
    requires id < |entries| && entries[id].status == Pending
    requires StackHolds(entries, stack) && AllStacked(entries, stack) && StartedCleaned(entries, trace)
    ensures var e, s := entries[id := Entry(entries[id].action, Removed)], Erase(stack, id);
      StackHolds(e, s) && AllStacked(e, s) && StartedCleaned(e, trace)
  {
    var e, s := entries[id := Entry(entries[id].action, Removed)], Erase(stack, id);
    EraseDistinct(stack, id);
    forall i | 0 <= i < |s|
      ensures s[i] < |e| && e[s[i]].status == Pending
    {
      assert s[i] in stack && s[i] != id;
    }
  }

  /** Events that start no callback keep every started callback marked
      cleaned and started once. */
  lemma QuietKeeps(entries: seq<Entry>, trace: seq<Event>, extra: seq<Event>)
    requires forall i :: 0 <= i < |extra| ==> !extra[i].Ran?
    requires StartedCleaned(entries, trace) && StartedOnce(trace)
    ensures StartedCleaned(entries, trace + extra) && StartedOnce(trace + extra)
  {
    var t := trace + extra;
    assert forall i :: |trace| <= i < |t| ==> t[i] == extra[i - |trace|];
  }

  /** Running a pending entry that is off the stack marks it cleaned and
      pushes the entries its callback registers: the stack stays made of
      distinct pending entries, every pending entry is on it, and every
      started callback is marked cleaned and started once. */
  lemma RunKeeps(entries: seq<Entry>, stack: seq<nat>, trace: seq<Event>, id: nat)
    requires id < |entries| && entries[id].status == Pending && id !in stack
    requires StackHolds(entries, stack) && StartedCleaned(entries, trace) && StartedOnce(trace)
    requires forall k :: 0 <= k < |entries| && k != id && entries[k].status == Pending ==> k in stack
    ensures var a, n := entries[id].action, |entries|;
      var e, s, t := entries[id := Entry(a, Cleaned)] + Registered(a.pushes), stack + Range(n, |a.pushes|), trace + Outcome(Slot(id, a));
      StackHolds(e, s) && AllStacked(e, s) && StartedCleaned(e, t) && StartedOnce(t)
  {
    var a, n := entries[id].action, |entries|;
    var e, s, t := entries[id := Entry(a, Cleaned)] + Registered(a.pushes), stack + Range(n, |a.pushes|), trace + Outcome(Slot(id, a));
    forall k | 0 <= k < |e| && e[k].status == Pending
      ensures k in s
    {
      if k >= n {
        assert s[|stack| + (k - n)] == k;
      } else {
        assert k != id && k in stack;
      }
    }
    forall i, j | 0 <= i < j < |t| && t[i].Ran? && t[j].Ran?
      ensures t[i].id != t[j].id
    {
      if j >= |trace| {
        assert j == |trace| && t[j].id == id;
        assert trace[i].Ran? && entries[trace[i].id].status == Cleaned;
      }
    }
  }

  /** The stack of identities as slots, bottom first. */
  ghost function SlotsOf(stack: seq<nat>, entries: seq<Entry>): (r: seq<Slot>)
    requires forall i :: 0 <= i < |stack| ==> stack[i] < |entries|
    ensures |r| == |stack|
  {
    seq(|stack|, i requires 0 <= i < |stack| => Slot(stack[i], entries[stack[i]].action))
  }

  /** The entries a callback registers are the next slots on the stack. */
  lemma RunSlots(entries: seq<Entry>, stack: seq<nat>, id: nat)
    requires id < |entries| && forall i :: 0 <= i < |stack| ==> stack[i] < |entries|
    ensures var a, n := entries[id].action, |entries|;
      var e, s := entries[id := Entry(a, Cleaned)] + Registered(a.pushes), stack + Range(n, |a.pushes|);
      && (forall i :: 0 <= i < |s| ==> s[i] < |e|)
      && SlotsOf(s, e) == SlotsOf(stack, entries) + Numbered(a.pushes, n)
  {
    var a, n := entries[id].action, |entries|;
    var e, s := entries[id := Entry(a, Cleaned)] + Registered(a.pushes), stack + Range(n, |a.pushes|);
    assert forall i :: 0 <= i < |stack| ==> e[stack[i]].action == entries[stack[i]].action;
  }

  /** The module-level state of dax.ts: the `cleanups` array (function
      entries by identity, and the stack of identities), the promises given
      to `addCleanup`, the `cleanupRunning` and `cleanupBound` flags, and the
      observable effects so far. */
  class CleanupStack {
    var entries: seq<Entry>
    var stack: seq<nat>
    var promises: seq<PromiseStatus>
    var running: bool
    var bound: bool
    var trace: seq<Event>
    var exitCode: Option<int>

    /** The stack holds distinct pending entries. */
    ghost predicate StackOk()
      reads this
    {
      StackHolds(entries, stack)
    }

    /** A callback that started is marked cleaned, and none started twice. */
    ghost predicate RanOnce()
      reads this
    {
      StartedCleaned(entries, trace) && StartedOnce(trace)
    }

    ghost predicate Valid()
      reads this
    {
      && StackOk()
      && AllStacked(entries, stack)
      && RanOnce()
      && (exitCode.Some? ==> running)
    }

    /** The stack as slots, bottom first. */
    ghost function Slots(): (r: seq<Slot>)
      reads this
      requires StackOk()
      ensures |r| == |stack|
    {
      SlotsOf(stack, entries)
    }

    constructor ()
      ensures Valid()
      ensures entries == [] && stack == [] && promises == [] && trace == []
      ensures !running && !bound && exitCode == None
    {
      entries, stack, promises, trace := [], [], [], [];
      running, bound, exitCode := false, false, None;
    }

    /** The controller a command built now is tied to (dax.ts:167-171). */
    function CommandController(): (c: Controller)
      reads this
      ensures c == KillControllerCleanup <==> running
    {
      if running then KillControllerCleanup else KillController
    }

    /** A command built before cleanup runs is tied to the controller the
        shutdown signals first, before any callback starts. */
    lemma ScriptCommandsTerminated(stack: seq<Slot>, next: nat, code: int)
      requires !running
      ensures var t := Shutdown(stack, next, code);
        && t[0] == Signalled(CommandController(), SIGTERM)
        && forall j :: 0 <= j < |t| && t[j].Ran? ==> 0 < j
    {
      ShutdownShape(stack, next, code);
    }

    /** A command built by a teardown while cleanup runs is tied to the
        other controller: the opening SIGTERM does not reach it, and it is
        signalled, with SIGINT, only after every callback has started. */
    lemma TeardownCommandsSpared(stack: seq<Slot>, next: nat, code: int)
      requires running
      ensures var t := Shutdown(stack, next, code);
        && t[0].Signalled? && t[0].controller != CommandController()
        && (exists i :: 0 <= i < |t| && t[i] == Signalled(CommandController(), SIGINT))
        && forall i, j :: 0 <= i < |t| && 0 <= j < |t| && t[i].Signalled? && t[i].controller == CommandController() && t[j].Ran? ==> j < i
    {
      var t, d := Shutdown(stack, next, code), Drain(stack, next);
      ShutdownShape(stack, next, code);
      assert t[|d| + 1] == Signalled(CommandController(), SIGINT);
      forall i, j | 0 <= i < |t| && 0 <= j < |t| && t[i].Signalled? && t[i].controller == CommandController() && t[j].Ran?
        ensures j < i
      {
        assert i == |d| + 1;
      }
    }

    /** `addCleanup(fn)`: a new pending entry on top of the stack. */
    method AddCleanup(a: Action) returns (id: nat)
      requires Valid()
      modifies this
      ensures Valid()
      ensures id == old(|entries|)
      ensures entries == old(entries) + [Entry(a, Pending)] && stack == old(stack) + [id]
      ensures Slots() == old(Slots()) + [Slot(id, a)]
      ensures promises == old(promises) && trace == old(trace)
      ensures running == old(running) && bound == old(bound) && exitCode == old(exitCode)
    {
      id := |entries|;
      entries := entries + [Entry(a, Pending)];
      stack := stack + [id];
    }

    /** `addCleanup(promise)`: only the settlement of the promise is watched;
        nothing is pushed onto the stack, so the drain never waits for it. */
    method AddPromiseCleanup() returns (p: nat)
      requires Valid()
      modifies this
      ensures Valid()
      ensures p == old(|promises|) && promises == old(promises) + [Waiting]
      ensures entries == old(entries) && stack == old(stack) && trace == old(trace)
      ensures running == old(running) && bound == old(bound) && exitCode == old(exitCode)
    {
      p := |promises|;
      promises := promises + [Waiting];
    }

    /** `remove()` of a promise entry: the first call on an unsettled promise
        resolves the returned promise with null; otherwise nothing happens. */
    method RemovePromise(p: nat) returns (resolvedWithNull: bool)
      requires Valid() && p < |promises|
      modifies this
      ensures Valid()
      ensures resolvedWithNull <==> old(promises[p]) == Waiting
      ensures promises == old(promises)[p := if resolvedWithNull then Withdrawn else old(promises[p])]
      ensures entries == old(entries) && stack == old(stack) && trace == old(trace)
      ensures running == old(running) && bound == old(bound) && exitCode == old(exitCode)
    {
      resolvedWithNull := promises[p] == Waiting;
      if resolvedWithNull {
        promises := promises[p := Withdrawn];
      }
    }

    /** `remove()` of a function entry (dax.ts:24-30): a pending entry is marked
        removed and taken off the stack; an entry that already ran or was
        removed is left alone. */
    method Remove(id: nat)
      requires Valid() && id < |entries|
      modifies this
      ensures Valid()
      ensures old(entries[id].status) == Pending ==>
        entries == old(entries)[id := Entry(old(entries[id].action), Removed)] && stack == Erase(old(stack), id)
      ensures old(entries[id].status) != Pending ==> entries == old(entries) && stack == old(stack)
      ensures promises == old(promises) && trace == old(trace)
      ensures running == old(running) && bound == old(bound) && exitCode == old(exitCode)
    {
      if entries[id].status == Pending {
        RemoveKeeps(entries, stack, trace, id);
        entries := entries[id := Entry(entries[id].action, Removed)];
        stack := Erase(stack, id);
      }
    }

    /** Runs the callback of a pending entry already taken off the stack
        (the body of the wrapper, dax.ts:17-22): marks it cleaned, lets the
        callback register its own callbacks, and records what happened. */
    method RunPopped(id: nat) returns (ok: bool)
      requires StackOk() && RanOnce() && (exitCode.Some? ==> running)
      requires id < |entries| && entries[id].status == Pending && id !in stack
      requires forall k :: 0 <= k < |entries| && k != id && entries[k].status == Pending ==> k in stack
      modifies this
      ensures Valid()
      ensures ok == !old(entries[id].action.throws)
      ensures trace == old(trace) + Outcome(Slot(id, old(entries[id].action)))
      ensures entries == old(entries)[id := Entry(old(entries[id].action), Cleaned)] + Registered(old(entries[id].action.pushes))
      ensures stack == old(stack) + Range(old(|entries|), |old(entries[id].action.pushes)|)
      ensures Slots() == old(Slots()) + Numbered(old(entries[id].action.pushes), old(|entries|))
      ensures promises == old(promises)
      ensures running == old(running) && bound == old(bound) && exitCode == old(exitCode)
    {
      var a := entries[id].action;
      var n := |entries|;
      ghost var before := Slots();
      RunKeeps(entries, stack, trace, id);
      RunSlots(entries, stack, id);
      entries := entries[id := Entry(a, Cleaned)] + Registered(a.pushes);
      stack := stack + Range(n, |a.pushes|);
      trace := trace + Outcome(Slot(id, a));
      ok := !a.throws;
    }

    /** Calling a function entry's wrapper directly (dax.ts:16-23): a pending
        entry is taken off the stack and its callback runs, once; calling it
        again, or after `remove()`, does nothing.  `ok` is false when the
        callback threw, which the caller then sees. */
    method Invoke(id: nat) returns (ok: bool)
      requires Valid() && id < |entries|
      modifies this
      ensures Valid()
      ensures old(entries[id].status) != Pending ==>
        ok && entries == old(entries) && stack == old(stack) && trace == old(trace)
      ensures old(entries[id].status) == Pending ==>
        && ok == !old(entries[id].action.throws)
        && trace == old(trace) + Outcome(Slot(id, old(entries[id].action)))
        && entries == old(entries)[id := Entry(old(entries[id].action), Cleaned)] + Registered(old(entries[id].action.pushes))
        && stack == Erase(old(stack), id) + Range(old(|entries|), |old(entries[id].action.pushes)|)
      ensures promises == old(promises)
      ensures running == old(running) && bound == old(bound) && exitCode == old(exitCode)
    {
      ok := true;
      if entries[id].status == Pending {
        EraseDistinct(stack, id);
        stack := Erase(stack, id);
        ok := RunPopped(id);
      }
    }

    /** `runCleanupAndExit(code)` (dax.ts:67-88).  A call while cleanup is
        already running changes nothing and never returns (`parked`).  The
        first call signals, drains the stack to the end, signals again and
        exits with its own code. */
    method RunCleanupAndExit(code: int) returns (parked: bool)
      requires Valid()
      modifies this
      ensures Valid()
      ensures parked == old(running)
      ensures parked ==> entries == old(entries) && stack == old(stack) && trace == old(trace) && exitCode == old(exitCode)
      ensures !parked ==>
        && trace == old(trace) + Shutdown(old(Slots()), old(|entries|), code)
        && stack == [] && running && exitCode == Some(code)
      ensures running && promises == old(promises) && bound == old(bound)
    {
      parked := running;
      if parked {
        return;
      }
      ghost var slots0, t0, n0 := Slots(), trace, |entries|;
      running := true;
      QuietKeeps(entries, trace, [Signalled(KillController, SIGTERM)]);
      trace := trace + [Signalled(KillController, SIGTERM)];
      assert Slots() == slots0;
      DrainAll();
      QuietKeeps(entries, trace, [Signalled(KillControllerCleanup, SIGINT), Exited(code)]);
      trace := trace + [Signalled(KillControllerCleanup, SIGINT), Exited(code)];
      exitCode := Some(code);
      ShutdownAppends(t0, slots0, n0, code);
    }

    /** The drain loop (dax.ts:74-84): the stack length is read again on every
        turn, so callbacks registered by a callback being drained are run too. */
    method DrainAll()
      requires Valid()
      modifies this
      ensures Valid() && stack == []
      ensures trace == old(trace) + Drain(old(Slots()), old(|entries|))
      ensures promises == old(promises)
      ensures running == old(running) && bound == old(bound) && exitCode == old(exitCode)
    {
      ghost var start, drained := trace, Drain(Slots(), |entries|);
      while stack != []
        invariant Valid()
        invariant promises == old(promises) && running == old(running) && bound == old(bound) && exitCode == old(exitCode)
        invariant trace + Drain(Slots(), |entries|) == start + drained
        decreases Weight(Actions(Slots()))
      {
        ghost var before, n, told := Slots(), |entries|, trace;
        DrainOne();
        DrainTurn(before, n, told, trace, Slots(), |entries|);
      }
      assert Slots() == [];
      assert trace + [] == trace;
    }

    /** One turn of the drain loop (dax.ts:75-83): pop the top entry and run
        its callback, logging a failure instead of stopping. */
    method DrainOne()
      requires Valid() && stack != []
      modifies this
      ensures Valid()
      ensures var top := old(Slots())[|old(Slots())| - 1];
        && trace == old(trace) + Outcome(top)
        && Slots() == old(Slots())[..|old(Slots())| - 1] + Numbered(top.action.pushes, old(|entries|))
        && |entries| == old(|entries|) + |top.action.pushes|
      ensures Weight(Actions(Slots())) < old(Weight(Actions(Slots())))
      ensures promises == old(promises)
      ensures running == old(running) && bound == old(bound) && exitCode == old(exitCode)
    {
      ghost var before := Slots();
      ghost var n := |entries|;
      var id := stack[|stack| - 1];
      ghost var a := entries[id].action;
      assert before[|before| - 1] == Slot(id, a);
      stack := stack[..|stack| - 1];
      assert Slots() == before[..|before| - 1];
      assert id !in stack;
      var _ := RunPopped(id);
      DrainStep(before, n);
      PopWeight(before, n);
    }

    /** `bindCleanup()` (dax.ts:90-97): installs the handlers once. */
    method BindCleanup()
      requires Valid()
      modifies this
      ensures Valid() && bound
      ensures entries == old(entries) && stack == old(stack) && trace == old(trace) && promises == old(promises)
      ensures running == old(running) && exitCode == old(exitCode)
    {
      if bound {
        return;
      }
      bound := true;
    }

    /** A signal or fault reaching the process: once `bindCleanup` has run,
        it starts cleanup with 130, 143 or 1 (dax.ts:93-96), which parks if
        cleanup already runs.  Without the handlers nothing of the stack is
        touched. */
    method OnProcessEvent(e: ProcessEvent) returns (handled: bool, parked: bool)
      requires Valid()
      modifies this
      ensures Valid()
      ensures handled == bound == old(bound)
      ensures parked <==> handled && old(running)
      ensures !handled || parked ==> entries == old(entries) && stack == old(stack) && trace == old(trace) && exitCode == old(exitCode)
      ensures handled && !parked ==>
        && trace == old(trace) + Shutdown(old(Slots()), old(|entries|), ExitCodeFor(e))
        && stack == [] && exitCode == Some(ExitCodeFor(e))
      ensures promises == old(promises)
    {
      handled, parked := bound, false;
      if handled {
        parked := RunCleanupAndExit(ExitCodeFor(e));
      }
    }

    /** The promise passed to `addCleanup` settles (dax.ts:38-55).  If it was
        still watched it is marked settled; a rejection then rethrows into a
        promise nobody handles, which reaches the unhandled-rejection handler. */
    method SettlePromise(p: nat, rejected: bool) returns (unhandled: bool)
      requires Valid() && p < |promises|
      modifies this
      ensures Valid()
      ensures unhandled <==> old(promises[p]) == Waiting && rejected
      ensures promises == old(promises)[p := if old(promises[p]) == Waiting then Settled else old(promises[p])]
      ensures !unhandled || !bound || old(running) ==>
        entries == old(entries) && stack == old(stack) && trace == old(trace) && exitCode == old(exitCode)
      ensures unhandled && bound && !old(running) ==>
        && trace == old(trace) + Shutdown(old(Slots()), old(|entries|), 1)
        && stack == [] && exitCode == Some(1)
    {
      unhandled := promises[p] == Waiting && rejected;
      if promises[p] == Waiting {
        promises := promises[p := Settled];
      }
      if unhandled {
        var _, _ := OnProcessEvent(UnhandledRejection);
      }
    }
  }

  /** One turn of the drain loop moves one outcome from what is left to drain
      into what has been recorded, and leaves less to drain. */
  lemma DrainTurn(before: seq<Slot>, n: nat, told: seq<Event>, trace: seq<Event>, after: seq<Slot>, m: nat)
    requires before != []
    requires trace == told + Outcome(before[|before| - 1])
    requires after == before[..|before| - 1] + Numbered(before[|before| - 1].action.pushes, n)
    requires m == n + |before[|before| - 1].action.pushes|
    ensures trace + Drain(after, m) == told + Drain(before, n)
    ensures Weight(Actions(after)) < Weight(Actions(before))
  {
    DrainTopAs(before, n, before[|before| - 1], after, m);
    PopWeight(before, n);
    Regroup(told, Outcome(before[|before| - 1]), Drain(after, m));
  }

  /** One turn of the drain loop, read off the definition of `Drain`. */
  lemma DrainStep(stack: seq<Slot>, next: nat)
    requires stack != []
    ensures Drain(stack, next) ==
      Outcome(stack[|stack| - 1]) + Drain(stack[..|stack| - 1] + Numbered(stack[|stack| - 1].action.pushes, next), next + |stack[|stack| - 1].action.pushes|)
  {
  }
}
