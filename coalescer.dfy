/** The size-update coalescer of the session: it sits between the scanner's events and the
    client, and holds back the stream of "still updating" sizes of each directory so that at most
    one of them per directory goes out per timer period.

    Timers are not clocks here: a timer that expires is an input, `TimerFired(path)`. A timer is
    armed exactly when its path gets a pending entry, and removing the entry drops the timer's
    handle, which cancels it; so the armed timers are always the keys of the pending map, and a
    fire for a path that has no entry cannot occur and changes nothing. */
module Coalescer {
  import opened Paths
  import opened Api

  /** What reaches the coalescer: an event from the scanner, or the expiry of the timer armed
      for a path. */
  datatype Input = Incoming(event: EventMessage) | TimerFired(path: Path)

  /** The pending map (path to latest withheld size) and everything sent to the client. */
  datatype State = State(pending: map<Path, nat>, emitted: seq<EventMessage>)

  /** The coalescer only ever sees directory size updates: a file entry is `unreachable!()`. */
  predicate Acceptable(input: Input) {
    !(input.Incoming? && input.event.SizeUpdate? && input.event.entry.File?)
  }

  /** A `slow_update`: a directory that is still being scanned and has a non-zero size. */
  predicate IsSlowUpdate(entry: Entry) {
    entry.Directory? && entry.updating == Updating && entry.size != 0
  }

  /** One step of the coalescer loop, or of a timer task. */
  function Step(s: State, input: Input): State
    requires Acceptable(input)
  {
    match input
    case TimerFired(path) =>
      if path in s.pending then
        State(s.pending - {path}, s.emitted + [SizeUpdate(Directory(path, s.pending[path], Updating))])
      else s
    case Incoming(event) =>
      match event
      case DirectoryChange(_, _, _, _) => State(map[], s.emitted + [event])
      case SizeUpdate(entry) =>
        if IsSlowUpdate(entry) then State(s.pending[entry.path := entry.size], s.emitted)
        else State(s.pending - {entry.path}, s.emitted + [event])
      case Deleting(_, _) => State(s.pending, s.emitted + [event])
  }

  /** The coalescer over a sequence of inputs. */
  function Run(s: State, inputs: seq<Input>): State
    requires forall i | 0 <= i < |inputs| :: Acceptable(inputs[i])
    decreases |inputs|
  {
    if inputs == [] then s else Run(Step(s, inputs[0]), inputs[1..])
  }

  /** Every pending size is non-zero: only slow updates are withheld. */
  predicate PendingNonZero(s: State) {
    forall p | p in s.pending :: s.pending[p] != 0
  }

  /** The coalescer never withholds a size of 0, whatever it receives. */
  lemma StepKeepsPendingNonZero(s: State, input: Input)
    requires Acceptable(input) && PendingNonZero(s)
    ensures PendingNonZero(Step(s, input))
  {
  }

  /** A step adds at most one event to the output, and never takes anything back. */
  lemma StepEmitsAtMostOne(s: State, input: Input)
    requires Acceptable(input)
    ensures var t := Step(s, input);
            |s.emitted| <= |t.emitted| <= |s.emitted| + 1 && t.emitted[..|s.emitted|] == s.emitted
  {
  }

  /** A directory change cancels every timer and is forwarded unchanged. */
  lemma DirectoryChangeClears(s: State, event: EventMessage)
    requires event.DirectoryChange?
    ensures Step(s, Incoming(event)) == State(map[], s.emitted + [event])
  {
  }

  /** A slow update is withheld: only its path's pending size changes, and the output does not. */
  lemma SlowUpdateWithheld(s: State, entry: Entry)
    requires IsSlowUpdate(entry)
    ensures var t := Step(s, Incoming(SizeUpdate(entry)));
            && t.emitted == s.emitted
            && entry.path in t.pending && t.pending[entry.path] == entry.size
            && (forall p | p != entry.path :: (p in t.pending <==> p in s.pending))
            && (forall p | p in s.pending && p != entry.path :: t.pending[p] == s.pending[p])
  {
  }

  /** Any other size update is forwarded unchanged and drops its path's pending entry (and so
      its timer). */
  lemma OtherUpdateForwarded(s: State, entry: Entry)
    requires entry.Directory? && !IsSlowUpdate(entry)
    ensures Step(s, Incoming(SizeUpdate(entry))) == State(s.pending - {entry.path}, s.emitted + [SizeUpdate(entry)])
  {
  }

  /** Deleting events pass straight through; the pending map is untouched. */
  lemma DeletingPassesThrough(s: State, path: Path, status: DeletingStatus)
    ensures Step(s, Incoming(EventMessage.Deleting(path, status))) == State(s.pending, s.emitted + [EventMessage.Deleting(path, status)])
  {
  }

  /** Once a directory change has gone through, no timer armed before it emits anything. */
  lemma NoFireAfterDirectoryChange(s: State, event: EventMessage, path: Path)
    requires event.DirectoryChange?
    ensures var t := Step(s, Incoming(event));
            Step(t, TimerFired(path)) == t
  {
  }

  /** Over any run, the pending sizes stay non-zero. */
  lemma {:induction false} RunKeepsPendingNonZero(s: State, inputs: seq<Input>)
    requires forall i | 0 <= i < |inputs| :: Acceptable(inputs[i])
    requires PendingNonZero(s)
    ensures PendingNonZero(Run(s, inputs))
    decreases |inputs|
  {
    if inputs != [] {
      StepKeepsPendingNonZero(s, inputs[0]);
      RunKeepsPendingNonZero(Step(s, inputs[0]), inputs[1..]);
    }
  }

  /** Over any run, the output only grows, by at most one event per input. */
  lemma {:induction false} RunExtendsOutput(s: State, inputs: seq<Input>)
    requires forall i | 0 <= i < |inputs| :: Acceptable(inputs[i])
    ensures var t := Run(s, inputs);
            |s.emitted| <= |t.emitted| <= |s.emitted| + |inputs| && t.emitted[..|s.emitted|] == s.emitted
    decreases |inputs|
  {
    if inputs != [] {
      var t := Step(s, inputs[0]);
      StepEmitsAtMostOne(s, inputs[0]);
      RunExtendsOutput(t, inputs[1..]);
      var u := Run(t, inputs[1..]);
      assert u.emitted[..|s.emitted|] == u.emitted[..|t.emitted|][..|s.emitted|];
    }
  }

  /** A stream of slow updates for one path. */
  function Burst(path: Path, sizes: seq<nat>): (r: seq<Input>)
    ensures |r| == |sizes|
    ensures forall i | 0 <= i < |sizes| :: r[i] == Incoming(SizeUpdate(Directory(path, sizes[i], Updating)))
  {
    if sizes == [] then [] else [Incoming(SizeUpdate(Directory(path, sizes[0], Updating)))] + Burst(path, sizes[1..])
  }

  lemma {:induction false} RunAppend(s: State, a: seq<Input>, b: seq<Input>)
    requires forall i | 0 <= i < |a| :: Acceptable(a[i])
    requires forall i | 0 <= i < |b| :: Acceptable(b[i])
    ensures forall i | 0 <= i < |a + b| :: Acceptable((a + b)[i])
    ensures Run(s, a + b) == Run(Run(s, a), b)
    decreases |a|
  {
    if a != [] {
      assert (a + b)[1..] == a[1..] + b;
      RunAppend(Step(s, a[0]), a[1..], b);
    } else {
      assert a + b == b;
    }
  }

  /** A burst of slow updates for one path only overwrites its pending size with the latest,
      and sends nothing. */
  lemma {:induction false} BurstWithheld(s: State, path: Path, sizes: seq<nat>)
    requires |sizes| > 0 && forall i | 0 <= i < |sizes| :: sizes[i] != 0
    ensures var t := Run(s, Burst(path, sizes));
            t == State(s.pending[path := sizes[|sizes| - 1]], s.emitted)
    decreases |sizes|
  {
    var first := Incoming(SizeUpdate(Directory(path, sizes[0], Updating)));
    var t := Step(s, first);
    assert Burst(path, sizes)[1..] == Burst(path, sizes[1..]);
    if |sizes| > 1 {
      BurstWithheld(t, path, sizes[1..]);
      assert t.pending[path := sizes[|sizes| - 1]] == s.pending[path := sizes[|sizes| - 1]];
    }
  }

  /** However many slow updates arrive for a path before its timer fires, the client gets
      exactly one size update for it: the latest size, still marked as updating. */
  lemma BurstThenFire(s: State, path: Path, sizes: seq<nat>)
    requires |sizes| > 0 && forall i | 0 <= i < |sizes| :: sizes[i] != 0
    requires path !in s.pending
    ensures forall i | 0 <= i < |Burst(path, sizes) + [TimerFired(path)]| :: Acceptable((Burst(path, sizes) + [TimerFired(path)])[i])
    ensures Run(s, Burst(path, sizes) + [TimerFired(path)])
         == State(s.pending, s.emitted + [SizeUpdate(Directory(path, sizes[|sizes| - 1], Updating))])
  {
    BurstWithheld(s, path, sizes);
    RunAppend(s, Burst(path, sizes), [TimerFired(path)]);
    var t := Run(s, Burst(path, sizes));
    assert t.pending[path := sizes[|sizes| - 1]] - {path} == s.pending;
  }

  /** The coalescer task: the pending map and what it has sent so far. */
  class SizeUpdateStream {
    var pending: map<Path, nat>
    var emitted: seq<EventMessage>

    /** The stream starts with nothing pending and nothing sent. */
    constructor ()
      ensures pending == map[] && emitted == []
    {
      pending := map[];
      emitted := [];
    }

    /** One event from the scanner. `armed` tells whether a new timer was started for it: only
        for a slow update whose path had no pending entry. */
    method Receive(event: EventMessage) returns (armed: bool)
      requires Acceptable(Incoming(event))
      modifies this
      ensures State(pending, emitted) == Step(State(old(pending), old(emitted)), Incoming(event))
      ensures armed <==> event.SizeUpdate? && IsSlowUpdate(event.entry) && event.entry.path !in old(pending)
    {
      armed := false;
      match event {
        case DirectoryChange(_, _, _, _) =>
          pending := map[];
        case SizeUpdate(entry) =>
          if IsSlowUpdate(entry) {
            armed := entry.path !in pending;
            pending := pending[entry.path := entry.size];
            return;
          }
          pending := pending - {entry.path};
        case Deleting(_, _) =>
      }
      emitted := emitted + [event];
    }

    /** The timer of `path` expires: its pending size goes out, still marked as updating. */
    method Fire(path: Path)
      modifies this
      ensures State(pending, emitted) == Step(State(old(pending), old(emitted)), TimerFired(path))
    {
      if path in pending {
        var size := pending[path];
        pending := pending - {path};
        emitted := emitted + [SizeUpdate(Directory(path, size, Updating))];
      }
    }
  }
}
