/** Child-process correlation (packages/build-tools/src/dax.ts:104-161): the
    spawn hook keeps a log of every child process started with its spawn
    options, and a `ChildProcessTracker` finds the processes whose
    environment carries its token.  Processes are identified by the identity
    of their `ChildProcess` object. */
module Tracker {
  import opened Common

  /** The spawn options, reduced to `options?.env?.DAX_PID_TRACKER`. */
  datatype SpawnOptions = SpawnOptions(trackerToken: Option<string>)

  /** One entry of `childProcessRefs`: the process and its first options. */
  datatype Record = Record(process: nat, options: SpawnOptions)

  /** A spawn call seen by the hook. */
  datatype Spawn = Spawn(process: nat, options: SpawnOptions)

  datatype FirstOutcome = Resolved(process: nat) | Rejected  // "Child process not found"

  predicate Matches(options: SpawnOptions, token: string) {
    options.trackerToken == Some(token)
  }

  /** `track()`: the recorded processes whose options carry `token`, in log order. */
  function Tracked(log: seq<Record>, token: string): (r: seq<nat>)
    ensures |r| <= |log|
  {
    if log == [] then []
    else (if Matches(log[0].options, token) then [log[0].process] else []) + Tracked(log[1..], token)
  }

  lemma {:induction false} TrackedAppend(a: seq<Record>, b: seq<Record>, token: string)
    ensures Tracked(a + b, token) == Tracked(a, token) + Tracked(b, token)
    decreases a
  {
    if a == [] {
      assert a + b == b;
    } else {
      var head := if Matches(a[0].options, token) then [a[0].process] else [];
      assert Tracked(a + b, token) == head + Tracked(a[1..] + b, token) by {
        assert (a + b)[0] == a[0] && (a + b)[1..] == a[1..] + b;
      }
      TrackedAppend(a[1..], b, token);
      assert head + (Tracked(a[1..], token) + Tracked(b, token)) == (head + Tracked(a[1..], token)) + Tracked(b, token);
    }
  }

  /** `track()` returns exactly the processes recorded with a matching token. */
  lemma {:induction false} TrackedMembers(log: seq<Record>, token: string, p: nat)
    ensures p in Tracked(log, token) <==> exists i :: 0 <= i < |log| && log[i] == Record(p, log[i].options) && Matches(log[i].options, token)
    decreases log
  {
    if log != [] {
      TrackedMembers(log[1..], token, p);
      if exists i :: 0 <= i < |log| && log[i] == Record(p, log[i].options) && Matches(log[i].options, token) {
        var i :| 0 <= i < |log| && log[i] == Record(p, log[i].options) && Matches(log[i].options, token);
        if i > 0 {
          assert log[1..][i - 1] == log[i];
        }
      }
      if exists i :: 0 <= i < |log[1..]| && log[1..][i] == Record(p, log[1..][i].options) && Matches(log[1..][i].options, token) {
        var i :| 0 <= i < |log[1..]| && log[1..][i] == Record(p, log[1..][i].options) && Matches(log[1..][i].options, token);
        assert log[i + 1] == log[1..][i];
      }
    }
  }

  /** The spawns in `window` that the hook records and announces: those of
      processes not seen before, each at its first spawn. */
  function Novel(window: seq<Spawn>, seen: set<nat>): (r: seq<Spawn>)
    ensures |r| <= |window|
    ensures forall i :: 0 <= i < |r| ==> r[i].process !in seen
    decreases |window|
  {
    if window == [] then []
    else if window[0].process in seen then Novel(window[1..], seen)
    else [window[0]] + Novel(window[1..], seen + {window[0].process})
  }

  /** What `first()` settles with when nothing is recorded yet and `window`
      holds the spawns before its 100 ms deadline: the first announced spawn
      carrying the token, or a rejection. */
  function Awaited(announced: seq<Spawn>, token: string): (r: FirstOutcome)
    ensures r.Resolved? <==> exists i :: 0 <= i < |announced| && Matches(announced[i].options, token)
    ensures r.Resolved? ==> exists i :: 0 <= i < |announced| && announced[i].process == r.process && Matches(announced[i].options, token)
  {
    if announced == [] then Rejected
    else if Matches(announced[0].options, token) then Resolved(announced[0].process)
    else
      var r := Awaited(announced[1..], token);
      assert forall i :: 1 <= i < |announced| ==> announced[i] == announced[1..][i - 1];
      r
  }

  /** How one spawn in the window moves the wait on: a repeated process is
      skipped, a new one carrying the token settles it, any other new one is
      remembered and the wait goes on. */
  lemma AwaitStep(w: Spawn, rest: seq<Spawn>, seen: set<nat>, token: string)
    ensures w.process in seen ==> Awaited(Novel([w] + rest, seen), token) == Awaited(Novel(rest, seen), token)
    ensures w.process !in seen && Matches(w.options, token) ==> Awaited(Novel([w] + rest, seen), token) == Resolved(w.process)
    ensures w.process !in seen && !Matches(w.options, token) ==>
      Awaited(Novel([w] + rest, seen), token) == Awaited(Novel(rest, seen + {w.process}), token)
  {
    assert ([w] + rest)[1..] == rest;
    if w.process !in seen {
      var n := Novel([w] + rest, seen);
      assert n == [w] + Novel(rest, seen + {w.process});
      assert n[1..] == Novel(rest, seen + {w.process});
    }
  }

  /** `track().at(0)`, resolved, or the rejection when there is none. */
  function FirstOf(tracked: seq<nat>): (r: FirstOutcome)
    ensures r.Rejected? <==> tracked == []
    ensures r.Resolved? ==> r.process == tracked[0]
  {
    if tracked == [] then Rejected else Resolved(tracked[0])
  }

  predicate DistinctProcesses(log: seq<Record>) {
    forall i, j :: 0 <= i < j < |log| ==> log[i].process != log[j].process
  }

  /** The hook's state: `childProcessRefs`, the `childProcessSet` WeakSet,
      and the number of "spawned" listeners attached to the emitter. */
  class SpawnLog {
    var refs: seq<Record>
    var seen: set<nat>
    var listeners: nat

    /** Every process is recorded at most once, and only when seen. */
    ghost predicate Valid()
      reads this
    {
      && DistinctProcesses(refs)
      && (forall i :: 0 <= i < |refs| ==> refs[i].process in seen)
    }

    constructor ()
      ensures Valid() && refs == [] && seen == {} && listeners == 0
    {
      refs, seen, listeners := [], {}, 0;
    }

    /** `track()` of a tracker with token `token`. */
    function Track(token: string): (r: seq<nat>)
      reads this
      ensures forall p :: p in r <==> exists i :: 0 <= i < |refs| && refs[i] == Record(p, refs[i].options) && Matches(refs[i].options, token)
    {
      TrackedMembers(refs, token, 0);
      var r := Tracked(refs, token);
      assert forall p :: p in r <==> exists i :: 0 <= i < |refs| && refs[i] == Record(p, refs[i].options) && Matches(refs[i].options, token) by {
        forall p ensures p in r <==> exists i :: 0 <= i < |refs| && refs[i] == Record(p, refs[i].options) && Matches(refs[i].options, token) {
          TrackedMembers(refs, token, p);
        }
      }
      r
    }

    /** The patched `ChildProcess.prototype.spawn` (dax.ts:113-124): the first
        spawn of a process is recorded and announced; a repeated spawn of the
        same process is neither. */
    method OnSpawn(s: Spawn) returns (announced: bool)
      requires Valid()
      modifies this
      ensures Valid()
      ensures announced <==> s.process !in old(seen)
      ensures announced ==> refs == old(refs) + [Record(s.process, s.options)] && seen == old(seen) + {s.process}
      ensures !announced ==> refs == old(refs) && seen == old(seen)
      ensures listeners == old(listeners)
    {
      announced := s.process !in seen;
      if announced {
        refs := refs + [Record(s.process, s.options)];
        seen := seen + {s.process};
      }
    }

    /** The finalization callback (dax.ts:107-111) after the process object
        was garbage-collected: its record, if any, leaves the log. */
    method Collect(process: nat)
      requires Valid()
      modifies this
      ensures Valid()
      ensures forall i :: 0 <= i < |old(refs)| && old(refs)[i].process != process ==> old(refs)[i] in refs
      ensures forall r :: r in refs ==> r in old(refs) && r.process != process
      ensures seen == old(seen) && listeners == old(listeners)
    {
      var i := 0;
      while i < |refs| && refs[i].process != process
        invariant 0 <= i <= |refs|
        invariant forall k :: 0 <= k < i ==> refs[k].process != process
      {
        i := i + 1;
      }
      if i < |refs| {
        assert forall k :: 0 <= k < |refs| && k != i ==> refs[k].process != process;
        ghost var old_refs := refs;
        refs := refs[..i] + refs[i + 1..];
        assert forall k :: 0 <= k < |refs| ==> refs[k] == if k < i then old_refs[k] else old_refs[k + 1];
      }
    }

    /** `tracker.first()` (dax.ts:137-161), given the spawns that happen before
        its 100 ms timer fires.  An already-recorded match resolves at once;
        otherwise a listener waits for the first announced matching spawn; at
        the deadline the log is checked once more and the promise rejects if
        still nothing matches.  The listener is always detached again. */
    method First(token: string, window: seq<Spawn>) returns (outcome: FirstOutcome)
      requires Valid()
      modifies this
      ensures Valid()
      ensures listeners == old(listeners)
      ensures old(Track(token)) != [] ==> outcome == Resolved(old(Track(token))[0]) && refs == old(refs)
      ensures old(Track(token)) == [] ==> outcome == Awaited(Novel(window, old(seen)), token)
      ensures outcome.Resolved? ==> outcome.process in Track(token)
      ensures outcome.Rejected? ==> Track(token) == []
    {
      var tracked := Track(token);
      if tracked != [] {
        return FirstOf(tracked);
      }
      listeners := listeners + 1;
      var i := 0;
      outcome := Rejected;
      while i < |window|
        invariant Valid() && 0 <= i <= |window|
        invariant listeners == old(listeners) + 1
        invariant Track(token) == []
        invariant Awaited(Novel(window, old(seen)), token) == Awaited(Novel(window[i..], seen), token)
      {
        ghost var before, seen0 := refs, seen;
        assert window[i..] == [window[i]] + window[i + 1..];
        AwaitStep(window[i], window[i + 1..], seen0, token);
        var announced := OnSpawn(window[i]);
        if announced {
          TrackedAppend(before, [Record(window[i].process, window[i].options)], token);
          if Matches(window[i].options, token) {
            listeners := listeners - 1;
            return Resolved(window[i].process);
          }
        }
        i := i + 1;
      }
      listeners := listeners - 1;
      tracked := Track(token);
      outcome := FirstOf(tracked);
    }
  }
}
