/** Teardown of a substrate-placed subtree: a bounded settle loop against a registry that may
    answer anything, grow between passes, or refuse any dismissal. */
module Reaper {
  import opened Common

  const MAX_PASSES := 8

  datatype Reply = ReadError | Nodes(ids: seq<string>)

  /** The calls made to the outside, in order. The registry's verdict on a dismissal is given by
      its place in this order. */
  datatype Call = ReadSubtree | Dismiss(id: string, ok: bool) | PushKill(id: string)

  datatype Stop = ReadFailed | NoNodes | NoProgress(snapshot: seq<string>) | OutOfPasses | Cancelled

  function Reads(log: seq<Call>): nat {
    if log == [] then 0 else Reads(log[..|log| - 1]) + if log[|log| - 1].ReadSubtree? then 1 else 0
  }

  /** A kill directly follows its own successful dismissal, and no id is killed twice. */
  ghost predicate KillsJustified(log: seq<Call>) {
    && (forall k :: 0 <= k < |log| && log[k].PushKill? ==> k > 0 && log[k - 1] == Dismiss(log[k].id, true))
    && (forall i, j :: 0 <= i < j < |log| && log[i].PushKill? ==> log[i] != log[j])
  }

  /** `done` and `failed` say what the calls achieved: dismissed (and so killed), or refused
      every time so far. */
  ghost predicate Accounts(log: seq<Call>, done: set<string>, failed: set<string>) {
    && (forall id :: id in done <==> Dismiss(id, true) in log)
    && (forall id :: id in done <==> PushKill(id) in log)
    && (forall id :: id in failed <==> Dismiss(id, false) in log && id !in done)
  }

  /** Each dismissal was answered by the registry. */
  ghost predicate Answered(log: seq<Call>, accepts: nat -> bool) {
    forall k :: 0 <= k < |log| && log[k].Dismiss? ==> log[k].ok == accepts(k)
  }

  // The same said call by call, which is how the loops keep it.

  function DoneOf(log: seq<Call>): set<string> {
    if log == [] then {}
    else
      var past, c := DoneOf(log[..|log| - 1]), log[|log| - 1];
      if c.Dismiss? && c.ok then past + {c.id} else past
  }

  function FailedOf(log: seq<Call>): set<string> {
    if log == [] then {}
    else
      var past, c := FailedOf(log[..|log| - 1]), log[|log| - 1];
      if !c.Dismiss? then past else if c.ok then past - {c.id} else past + {c.id}
  }

  /** An accepted dismissal still owes its kill. */
  predicate Owes(log: seq<Call>) {
    log != [] && log[|log| - 1].Dismiss? && log[|log| - 1].ok
  }

  /** Each call is one the reaper may make after the calls before it. */
  ghost predicate Protocol(log: seq<Call>, accepts: nat -> bool) {
    log != [] ==>
      var n := |log| - 1;
      var past := log[..n];
      && Protocol(past, accepts)
      && match log[n]
         case ReadSubtree => !Owes(past)
         case Dismiss(id, ok) => !Owes(past) && id !in DoneOf(past) && ok == accepts(n)
         case PushKill(id) => Owes(past) && past[n - 1].id == id
  }

  ghost predicate Balanced(log: seq<Call>, accepts: nat -> bool) {
    Protocol(log, accepts) && !Owes(log)
  }

  lemma Append(log: seq<Call>, c: Call)
    ensures var after := log + [c];
            && after[..|after| - 1] == log && after[|after| - 1] == c
            && DoneOf(after) == (if c.Dismiss? && c.ok then DoneOf(log) + {c.id} else DoneOf(log))
            && FailedOf(after) == (if !c.Dismiss? then FailedOf(log) else if c.ok then FailedOf(log) - {c.id} else FailedOf(log) + {c.id})
            && Reads(after) == Reads(log) + if c.ReadSubtree? then 1 else 0
  {
    var after := log + [c];
    assert after[..|after| - 1] == log;
  }

  lemma LogKill(log: seq<Call>, accepts: nat -> bool, id: string)
    requires Balanced(log, accepts) && id !in DoneOf(log) && accepts(|log|)
    ensures var after := log + [Dismiss(id, true), PushKill(id)];
            && Balanced(after, accepts) && Reads(after) == Reads(log)
            && DoneOf(after) == DoneOf(log) + {id} && FailedOf(after) == FailedOf(log) - {id}
  {
    var mid := log + [Dismiss(id, true)];
    Append(log, Dismiss(id, true));
    Append(mid, PushKill(id));
    assert Protocol(mid, accepts);
    assert mid + [PushKill(id)] == log + [Dismiss(id, true), PushKill(id)];
  }

  lemma {:induction false} ProtocolCounts(log: seq<Call>, accepts: nat -> bool)
    requires Protocol(log, accepts)
    ensures Answered(log, accepts)
    ensures forall id :: id in DoneOf(log) <==> Dismiss(id, true) in log
    ensures forall id :: id in FailedOf(log) <==> Dismiss(id, false) in log && id !in DoneOf(log)
    decreases |log|
  {
    if log != [] {
      var past, c := log[..|log| - 1], log[|log| - 1];
      ProtocolCounts(past, accepts);
      assert log == past + [c];
      assert forall x :: x in log <==> x in past || x == c;
    }
  }

  lemma {:induction false} ProtocolKills(log: seq<Call>, accepts: nat -> bool)
    requires Protocol(log, accepts)
    ensures forall id :: PushKill(id) in log <==> id in DoneOf(log) && !(Owes(log) && log[|log| - 1].id == id)
    decreases |log|
  {
    if log != [] {
      var past, c := log[..|log| - 1], log[|log| - 1];
      ProtocolKills(past, accepts);
      assert log == past + [c];
      assert Owes(past) ==> past[|past| - 1].id in DoneOf(past);
      assert forall id :: PushKill(id) in log <==> PushKill(id) in past || PushKill(id) == c;
    }
  }

  lemma {:induction false} ProtocolJustifies(log: seq<Call>, accepts: nat -> bool)
    requires Protocol(log, accepts)
    ensures KillsJustified(log)
    decreases |log|
  {
    if log != [] {
      var past, c := log[..|log| - 1], log[|log| - 1];
      ProtocolJustifies(past, accepts);
      ProtocolKills(past, accepts);
      forall k | 0 <= k < |log| && log[k].PushKill? ensures k > 0 && log[k - 1] == Dismiss(log[k].id, true) {
        assert k < |past| ==> past[k] == log[k];
      }
      forall i, j | 0 <= i < j < |log| && log[i].PushKill? ensures log[i] != log[j] {
        assert past[i] == log[i] && past[i] in past;
        assert j < |past| ==> past[j] == log[j];
      }
    }
  }

  /** What a balanced log means: kills justified, both sets exact, every verdict the registry's. */
  lemma BalancedMeans(log: seq<Call>, accepts: nat -> bool)
    requires Balanced(log, accepts)
    ensures KillsJustified(log) && Accounts(log, DoneOf(log), FailedOf(log)) && Answered(log, accepts)
    ensures (forall n :: accepts(n)) ==> FailedOf(log) == {}
  {
    ProtocolCounts(log, accepts);
    ProtocolJustifies(log, accepts);
    ProtocolKills(log, accepts);
    if forall n :: accepts(n) {
      assert forall k :: 0 <= k < |log| && log[k].Dismiss? ==> log[k].ok;
      assert FailedOf(log) == {};
    }
  }

  /** Dismiss, and kill only if that was accepted; nothing for an id already done. */
  method TearDown(id: string, accepts: nat -> bool, done: set<string>, failed: set<string>, log: seq<Call>)
    returns (done': set<string>, failed': set<string>, log': seq<Call>)
    requires Balanced(log, accepts) && done == DoneOf(log) && failed == FailedOf(log)
    ensures Balanced(log', accepts) && done' == DoneOf(log') && failed' == FailedOf(log') && Reads(log') == Reads(log)
    ensures log' == log + (if id in done then [] else if accepts(|log|) then [Dismiss(id, true), PushKill(id)] else [Dismiss(id, false)])
    ensures id in done ==> done' == done && failed' == failed
    ensures id !in done && accepts(|log|) ==> done' == done + {id} && failed' == failed - {id}
    ensures id !in done && !accepts(|log|) ==> done' == done && failed' == failed + {id}
  {
    if id in done { return done, failed, log; }
    if !accepts(|log|) {
      Append(log, Dismiss(id, false));
      return done, failed + {id}, log + [Dismiss(id, false)];
    }
    LogKill(log, accepts, id);
    return done + {id}, failed - {id}, log + [Dismiss(id, true), PushKill(id)];
  }

  /** Since position `from` there was no read, and only those ids were dismissed. */
  ghost predicate OnlyDismissed(log: seq<Call>, from: nat, ids: set<string>) {
    from <= |log| && forall k :: from <= k < |log| ==> !log[k].ReadSubtree? && (log[k].Dismiss? && log[k].ok ==> log[k].id in ids)
  }

  /** One pass over a snapshot. */
  method TearDownAll(ids: seq<string>, accepts: nat -> bool, done: set<string>, failed: set<string>, log: seq<Call>)
    returns (done': set<string>, failed': set<string>, log': seq<Call>)
    requires Balanced(log, accepts) && done == DoneOf(log) && failed == FailedOf(log)
    ensures Balanced(log', accepts) && done' == DoneOf(log') && failed' == FailedOf(log') && Reads(log') == Reads(log)
    ensures log <= log' && OnlyDismissed(log', |log|, done' - done)
    ensures done' + failed' == done + failed + Elements(ids)
    ensures done <= done' && (|done'| == |done| ==> done' == done)
  {
    done', failed', log' := done, failed, log;
    for i := 0 to |ids|
      invariant Balanced(log', accepts) && done' == DoneOf(log') && failed' == FailedOf(log') && Reads(log') == Reads(log)
      invariant log <= log' && OnlyDismissed(log', |log|, done' - done)
      invariant done <= done' && done' + failed' == done + failed + Elements(ids[..i])
    {
      assert Elements(ids[..i + 1]) == Elements(ids[..i]) + {ids[i]};
      done', failed', log' := TearDown(ids[i], accepts, done', failed', log');
    }
    assert ids[..|ids|] == ids;
    SubsetSize(done, done');
  }

  /** Every id the registry has named in its first `n` replies. */
  ghost function Named(answers: nat -> Reply, n: nat): set<string> {
    if n == 0 then {} else Named(answers, n - 1) + Ids(answers(n - 1))
  }

  /** The loop stopped for the reason it gives, judged by its last read. */
  ghost predicate Truly(stop: Stop, answers: nat -> Reply, settles: bool, cancels: nat -> bool, n: nat) {
    match stop
    case ReadFailed => 0 < n <= MAX_PASSES && answers(n - 1).ReadError?
    case NoNodes => 0 < n <= MAX_PASSES && answers(n - 1) == Nodes([])
    case NoProgress(snapshot) => 0 < n <= MAX_PASSES && answers(n - 1) == Nodes(snapshot)
    case OutOfPasses => n == MAX_PASSES
    case Cancelled => 0 < n < MAX_PASSES && settles && cancels(n - 1)
  }

  /** Some dismissal was accepted between the two positions. */
  ghost predicate Progress(log: seq<Call>, from: nat, to: nat) {
    to <= |log| && exists k :: from <= k < to && log[k].Dismiss? && log[k].ok
  }

  ghost function StartOf(ends: seq<nat>, j: nat): nat
    requires j <= |ends|
  {
    if j == 0 then 0 else ends[j - 1]
  }

  /** Pass `j` had reason to be followed by another: a reply naming agents, a new dismissal, and no
      cancellation. `ends` are the positions where the passes end; each begins with a read where the
      one before ended. */
  ghost predicate WentOn(log: seq<Call>, ends: seq<nat>, answers: nat -> Reply, settles: bool, cancels: nat -> bool, j: nat) {
    && j < |ends| && StartOf(ends, j) < ends[j] <= |log| && log[StartOf(ends, j)] == ReadSubtree
    && answers(j).Nodes? && answers(j).ids != [] && !(j + 1 < MAX_PASSES && settles && cancels(j))
    && Progress(log, StartOf(ends, j), ends[j])
  }

  ghost predicate Continued(log: seq<Call>, ends: seq<nat>, answers: nat -> Reply, settles: bool, cancels: nat -> bool, n: nat) {
    forall j: nat :: j < n ==> WentOn(log, ends, answers, settles, cancels, j)
  }

  lemma ProgressStays(log: seq<Call>, more: seq<Call>, from: nat, to: nat)
    requires log <= more && Progress(log, from, to)
    ensures Progress(more, from, to)
  {
    var k :| from <= k < to && log[k].Dismiss? && log[k].ok;
    assert more[k] == log[k];
  }

  lemma ContinuedExtends(
    log: seq<Call>, more: seq<Call>, ends: seq<nat>, ends': seq<nat>, answers: nat -> Reply, settles: bool, cancels: nat -> bool, n: nat)
    requires Continued(log, ends, answers, settles, cancels, n) && log <= more && ends <= ends'
    ensures Continued(more, ends', answers, settles, cancels, n)
  {
    forall j: nat | j < n ensures WentOn(more, ends', answers, settles, cancels, j) {
      assert WentOn(log, ends, answers, settles, cancels, j);
      ProgressStays(log, more, StartOf(ends, j), ends[j]);
      assert StartOf(ends', j) == StartOf(ends, j) && ends'[j] == ends[j];
    }
  }

  lemma OneMorePass(
    log: seq<Call>, more: seq<Call>, ends: seq<nat>, answers: nat -> Reply, settles: bool, cancels: nat -> bool)
    requires Continued(log, ends, answers, settles, cancels, |ends|) && StartOf(ends, |ends|) == |log| && log + [ReadSubtree] <= more
    ensures var n, ends' := |ends|, ends + [|more|];
            && Continued(more, ends', answers, settles, cancels, n) && StartOf(ends', n + 1) == |more|
            && (answers(n).Nodes? && answers(n).ids != [] && !(n + 1 < MAX_PASSES && settles && cancels(n)) && Progress(more, |log|, |more|)
                ==> Continued(more, ends', answers, settles, cancels, n + 1))
  {
    var n, ends' := |ends|, ends + [|more|];
    assert (log + [ReadSubtree])[|log|] == ReadSubtree;
    assert log <= more && more[|log|] == ReadSubtree;
    ContinuedExtends(log, more, ends, ends', answers, settles, cancels, n);
    assert StartOf(ends', n) == |log|;
  }

  lemma NewlyDone(log: seq<Call>, more: seq<Call>, accepts: nat -> bool)
    requires Protocol(log, accepts) && Protocol(more, accepts) && log <= more && DoneOf(log) < DoneOf(more)
    ensures Progress(more, |log|, |more|)
  {
    ProtocolCounts(log, accepts);
    ProtocolCounts(more, accepts);
    var id :| id in DoneOf(more) && id !in DoneOf(log);
    assert Dismiss(id, true) in more && Dismiss(id, true) !in log;
    var k :| 0 <= k < |more| && more[k] == Dismiss(id, true);
    assert forall i :: 0 <= i < |log| ==> more[i] == log[i] && log[i] in log;
  }

  /** One pass: a read and the teardown of what it names. `idle` when nothing new was dismissed. */
  method Pass(reply: Reply, accepts: nat -> bool, done: set<string>, failed: set<string>, log: seq<Call>)
    returns (done': set<string>, failed': set<string>, log': seq<Call>, idle: bool)
    requires Balanced(log, accepts) && done == DoneOf(log) && failed == FailedOf(log)
    ensures Balanced(log', accepts) && done' == DoneOf(log') && failed' == FailedOf(log')
    ensures log + [ReadSubtree] <= log' && Reads(log') == Reads(log) + 1
    ensures done' + failed' == done + failed + Ids(reply)
    ensures idle ==> OnlyDismissed(log', |log| + 1, {})
    ensures done <= done' && (idle <==> done' == done)
    ensures !idle ==> Progress(log', |log|, |log'|)
  {
    Append(log, ReadSubtree);
    done', failed', log', idle := done, failed, log + [ReadSubtree], true;
    if reply.Nodes? {
      var before := |done|;
      done', failed', log' := TearDownAll(reply.ids, accepts, done', failed', log');
      idle := |done'| == before;
      assert done' == done ==> done' - done == {};
      if !idle { NewlyDone(log, log', accepts); }
    }
  }

  ghost function Ids(reply: Reply): set<string> {
    if reply.Nodes? then Elements(reply.ids) else {}
  }

  /** The settle loop. `last` is the position after its last read. */
  method Settle(answers: nat -> Reply, accepts: nat -> bool, settles: bool, cancels: nat -> bool)
    returns (done: set<string>, failed: set<string>, log: seq<Call>, stop: Stop, ghost last: nat, ghost ends: seq<nat>)
    ensures Balanced(log, accepts) && done == DoneOf(log) && failed == FailedOf(log)
    ensures done + failed == Named(answers, Reads(log)) && Truly(stop, answers, settles, cancels, Reads(log))
    ensures stop.NoProgress? ==> 0 < last <= |log| && log[last - 1] == ReadSubtree && OnlyDismissed(log, last, {})
    ensures stop.NoProgress? ==> Elements(stop.snapshot) <= done + failed
    ensures |ends| == Reads(log) && Continued(log, ends, answers, settles, cancels, if stop.OutOfPasses? then |ends| else |ends| - 1)
  {
    done, failed, log, stop, last, ends := {}, {}, [], OutOfPasses, 0, [];
    var pass: nat := 0;
    while pass < MAX_PASSES
      invariant 0 <= pass <= MAX_PASSES && Reads(log) == pass
      invariant Balanced(log, accepts) && done == DoneOf(log) && failed == FailedOf(log)
      invariant done + failed == Named(answers, pass)
      invariant |ends| == pass && StartOf(ends, pass) == |log| && Continued(log, ends, answers, settles, cancels, pass)
    {
      ghost var was := log;
      var reply := answers(pass);
      last := |log| + 1;
      var idle;
      done, failed, log, idle := Pass(reply, accepts, done, failed, log);
      assert log[last - 1] == ReadSubtree;
      pass := pass + 1;
      OneMorePass(was, log, ends, answers, settles, cancels);
      ends := ends + [|log|];
      if reply.ReadError? { stop := ReadFailed; return; }
      if reply.ids == [] { stop := NoNodes; return; }
      if idle { stop := NoProgress(reply.ids); return; }
      if pass < MAX_PASSES && settles && cancels(pass - 1) { stop := Cancelled; return; }
    }
  }

  /** The loop and the root fallback. */
  method Reap(root: string, answers: nat -> Reply, accepts: nat -> bool, settles: bool, cancels: nat -> bool)
    returns (done: set<string>, failed: set<string>, log: seq<Call>, stop: Stop, ghost last: nat, ghost ends: seq<nat>)
    ensures Balanced(log, accepts) && done == DoneOf(log) && failed == FailedOf(log)
    ensures Truly(stop, answers, settles, cancels, Reads(log))
    ensures done + failed == Named(answers, Reads(log)) + if stop.Cancelled? then {} else {root}
    ensures stop.NoProgress? ==> 0 < last <= |log| && log[last - 1] == ReadSubtree && OnlyDismissed(log, last, {root})
    ensures stop.NoProgress? ==> Elements(stop.snapshot) <= done + failed
    ensures |ends| == Reads(log) && Continued(log, ends, answers, settles, cancels, if stop.OutOfPasses? then |ends| else |ends| - 1)
  {
    done, failed, log, stop, last, ends := Settle(answers, accepts, settles, cancels);
    if stop.Cancelled? { return; }
    ghost var was := log;
    done, failed, log := TearDown(root, accepts, done, failed, log);
    assert stop.NoProgress? ==> log[..|was|] == was;
    ContinuedExtends(was, log, ends, ends, answers, settles, cancels, if stop.OutOfPasses? then |ends| else |ends| - 1);
  }

  /** `answers` are the registry's replies by pass, `accepts` its verdicts by call, and `cancels`
      whether the caller gives up while waiting after a pass. */
  method ReapSubtree(root: string, answers: nat -> Reply, accepts: nat -> bool, settles: bool, cancels: nat -> bool)
    returns (done: set<string>, failed: set<string>, log: seq<Call>, stop: Stop, ghost last: nat, ghost ends: seq<nat>)
    ensures Reads(log) <= 8 && (stop.OutOfPasses? ==> Reads(log) == 8) && Truly(stop, answers, settles, cancels, Reads(log))
    ensures KillsJustified(log) && Accounts(log, done, failed) && Answered(log, accepts)
    ensures (forall n :: accepts(n)) ==> failed == {}
    ensures done + failed == Named(answers, Reads(log)) + if stop.Cancelled? then {} else {root}
    ensures stop.NoProgress? ==> 0 < last <= |log| && log[last - 1] == ReadSubtree && OnlyDismissed(log, last, {root})
    ensures stop.NoProgress? && failed == {} ==> Elements(stop.snapshot) <= done
    ensures |ends| == Reads(log) && Continued(log, ends, answers, settles, cancels, if stop.OutOfPasses? then |ends| else |ends| - 1)
  {
    done, failed, log, stop, last, ends := Reap(root, answers, accepts, settles, cancels);
    assert failed == {} ==> done + failed == done;
    BalancedMeans(log, accepts);
  }

  lemma SubsetSize(a: set<string>, b: set<string>)
    requires a <= b
    ensures |a| <= |b| && (|a| == |b| ==> a == b)
  {
    assert b == a + (b - a);
    if a != b { assert exists x :: x in b - a; }
  }
}
