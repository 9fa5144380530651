/** The sequential history of a run respects real time: each call that returns has committed exactly once
    since it was invoked, with the reply it returns. */
module DiskRealTime {
  import opened Prelude
  import opened AtomicStore
  import opened DiskMachine
  import opened DiskInvariant
  import opened DiskLinearizability

  /** The label belongs to thread `t`, or ends its call. */
  predicate Touches(l: Label, t: nat)
  {
    match l
    case Silent => false
    case Crashed(_) => true
    case _ => l.t == t
  }

  /** Nothing happens to thread `t` strictly between `i` and `j`. */
  predicate Still(labels: seq<Label>, t: nat, i: int, j: int)
  {
    forall k :: 0 <= k < |labels| && i < k < j ==> !Touches(labels[k], t)
  }

  lemma {:induction false} Prefix(h: HashFn, a: Atom, labels: seq<Label>, k: nat)
    requires AtomLegal(h, a, labels) && k < |labels|
    ensures AtomLegal(h, a, labels[..k]) && AtomLegal(h, a, labels[..k + 1])
    ensures var a' := AtomAfter(h, a, labels[..k]);
      AtomEnabled(a', labels[k]) && AtomAfter(h, a, labels[..k + 1]) == AtomApply(h, a', labels[k])
    decreases k
  {
    if k > 0 {
      var a1 := AtomApply(h, a, labels[0]);
      Prefix(h, a1, labels[1..], k - 1);
      assert labels[..k][1..] == labels[1..][..k - 1] && labels[..k + 1][1..] == labels[1..][..k];
    } else {
      assert labels[..1][1..] == [];
    }
  }

  /** The call of thread `t` open after `n` labels was invoked at `i`. */
  predicate InvokedAt(labels: seq<Label>, n: nat, t: nat, op: Op, i: nat)
  {
    i < n <= |labels| && labels[i] == Invoked(t, op) && Still(labels, t, i, n)
  }

  /** It was invoked at `i` and committed at `c`, once, with this reply. */
  ghost predicate CommittedAt(h: HashFn, a: Atom, labels: seq<Label>, n: nat, t: nat, op: Op, reply: Reply, i: nat, c: nat)
  {
    && i < c < n <= |labels| && labels[i] == Invoked(t, op) && labels[c].Committed? && labels[c].t == t
    && Still(labels, t, i, c) && Still(labels, t, c, n)
    && AtomLegal(h, a, labels[..c])
    && var a' := AtomAfter(h, a, labels[..c]);
       t < |a'.calls| && a'.calls[t] == Pending(op) && Atomic(h, a'.store, op, labels[c].f).reply == reply
  }

  /** What the state of a call after `n` labels says about the labels. */
  ghost predicate CallStory(h: HashFn, a: Atom, labels: seq<Label>, n: nat, t: nat, call: Call)
  {
    match call
    case Quiet => true
    case Pending(op) => exists i :: InvokedAt(labels, n, t, op, i)
    case Decided(op, reply) => exists i, c :: CommittedAt(h, a, labels, n, t, op, reply, i, c)
  }

  lemma StoryStep(h: HashFn, a: Atom, labels: seq<Label>, n: nat, t: nat)
    requires AtomLegal(h, a, labels) && n < |labels| && AtomLegal(h, a, labels[..n])
    requires var a' := AtomAfter(h, a, labels[..n]);
      t < |a'.calls| && AtomEnabled(a', labels[n]) && CallStory(h, a, labels, n, t, a'.calls[t])
    ensures var a' := AtomAfter(h, a, labels[..n]);
      CallStory(h, a, labels, n + 1, t, AtomApply(h, a', labels[n]).calls[t])
  {
    var a' := AtomAfter(h, a, labels[..n]);
    var l := labels[n];
    if Touches(l, t) {
      if l.Invoked? {
        assert InvokedAt(labels, n + 1, t, l.op, n);
      } else if l.Committed? {
        var op := a'.calls[t].op;
        var i :| InvokedAt(labels, n, t, op, i);
        assert CommittedAt(h, a, labels, n + 1, t, op, Atomic(h, a'.store, op, l.f).reply, i, n);
      }
    } else {
      match a'.calls[t]
      case Quiet =>
      case Pending(op) =>
        var i :| InvokedAt(labels, n, t, op, i);
        assert InvokedAt(labels, n + 1, t, op, i);
      case Decided(op, reply) =>
        var i, c :| CommittedAt(h, a, labels, n, t, op, reply, i, c);
        assert CommittedAt(h, a, labels, n + 1, t, op, reply, i, c);
    }
  }

  lemma {:induction false} Story(h: HashFn, a: Atom, labels: seq<Label>, n: nat, t: nat)
    requires AtomLegal(h, a, labels) && n <= |labels| && t < |a.calls| && a.calls[t] == Quiet
    ensures AtomLegal(h, a, labels[..n])
    ensures var a' := AtomAfter(h, a, labels[..n]);
      |a'.calls| == |a.calls| && CallStory(h, a, labels, n, t, a'.calls[t])
    decreases n
  {
    if n > 0 {
      Story(h, a, labels, n - 1, t);
      Prefix(h, a, labels, n - 1);
      StoryStep(h, a, labels, n - 1, t);
    }
  }

  // ---------------------------------------------------------------------------------------------
  // Places in the history

  function Commits(labels: seq<Label>): nat
  {
    if labels == [] then 0 else (if labels[0].Committed? then 1 else 0) + Commits(labels[1..])
  }

  lemma {:induction false} CommitsGrow(labels: seq<Label>, c: nat, c': nat)
    requires c < c' <= |labels| && labels[c].Committed?
    ensures Commits(labels[..c]) < Commits(labels[..c'])
    decreases |labels|
  {
    assert labels[..c'][1..] == labels[1..][..c' - 1];
    if c > 0 {
      assert labels[..c][1..] == labels[1..][..c - 1];
      CommitsGrow(labels[1..], c - 1, c' - 1);
    }
  }

  /** The event that thread `t` commits in state `a` of the atomic map under fault `f`. */
  ghost function EventOf(h: HashFn, a: Atom, t: nat, f: Fault): Event
    requires t < |a.calls| && a.calls[t].Pending?
  {
    Event(t, a.calls[t].op, f, Atomic(h, a.store, a.calls[t].op, f).reply)
  }

  lemma CommittedEvent(cfg: Config, s: State, a: Action)
    requires Inv(cfg.h, s) && Enabled(cfg, s, a)
    ensures var l := LabelOf(cfg, s, a);
      && AtomEnabled(AtomOf(s), l)
      && Committing(cfg, s, a) == if l.Committed? then [EventOf(cfg.h, AtomOf(s), l.t, l.f)] else []
  {
    ActionSimulates(cfg, s, a);
    if LabelOf(cfg, s, a).Committed? {
      CommitReply(cfg, s, a);
      assert AtomOf(s).calls[a.t] == CallOf(s.procs[a.t]);
    }
  }

  /** The history of a run is that of its trace: one event per commit, with the operation and the reply of
      the atomic map at that moment. */
  ghost function TraceHistory(h: HashFn, a: Atom, labels: seq<Label>): seq<Event>
    requires AtomLegal(h, a, labels)
    decreases |labels|
  {
    if labels == [] then []
    else (if labels[0].Committed? then [EventOf(h, a, labels[0].t, labels[0].f)] else [])
         + TraceHistory(h, AtomApply(h, a, labels[0]), labels[1..])
  }

  lemma {:induction false} SameHistory(cfg: Config, s: State, run: seq<Action>)
    requires Inv(cfg.h, s) && Legal(cfg, s, run)
    ensures AtomLegal(cfg.h, AtomOf(s), Trace(cfg, s, run))
    ensures TraceHistory(cfg.h, AtomOf(s), Trace(cfg, s, run)) == History(cfg, s, run)
    decreases |run|
  {
    Linearizable(cfg, s, run);
    if run != [] {
      ActionKeeps(cfg, s, run[0]);
      ActionSimulates(cfg, s, run[0]);
      CommittedEvent(cfg, s, run[0]);
      SameHistory(cfg, Apply(cfg, s, run[0]), run[1..]);
      assert Trace(cfg, s, run)[1..] == Trace(cfg, Apply(cfg, s, run[0]), run[1..]);
    }
  }

  /** An event stands in the history after all earlier commits. */
  lemma {:induction false} EventAt(h: HashFn, a: Atom, labels: seq<Label>, c: nat)
    requires AtomLegal(h, a, labels) && c < |labels| && labels[c].Committed?
    ensures AtomLegal(h, a, labels[..c]) && AtomEnabled(AtomAfter(h, a, labels[..c]), labels[c])
    ensures var es := TraceHistory(h, a, labels); var k := Commits(labels[..c]);
      k < |es| && es[k] == EventOf(h, AtomAfter(h, a, labels[..c]), labels[c].t, labels[c].f)
    decreases c
  {
    Prefix(h, a, labels, c);
    if c > 0 {
      var a1 := AtomApply(h, a, labels[0]);
      EventAt(h, a1, labels[1..], c - 1);
      assert labels[..c][1..] == labels[1..][..c - 1];
      var rest := TraceHistory(h, a1, labels[1..]);
      assert TraceHistory(h, a, labels)[Commits(labels[..c])] == rest[Commits(labels[1..][..c - 1])];
    }
  }

  /** A complete call of thread `t`, with the positions of its three labels in the trace, and its place in the history. */
  datatype Completed = Completed(t: nat, op: Op, reply: Reply, invoked: nat, committed: nat, returned: nat, place: nat)

  /** Between its invocation and its return the thread commits, once, and nothing else happens to it. */
  ghost predicate IsCall(labels: seq<Label>, es: seq<Event>, call: Completed)
  {
    var Completed(t, op, reply, i, c, r, k) := call;
    && i < c < r < |labels| && k < |es| && k == Commits(labels[..c])
    && labels[i] == Invoked(t, op) && labels[c].Committed? && labels[c].t == t && labels[r] == Returned(t, reply)
    && Still(labels, t, i, c) && Still(labels, t, c, r)
    && es[k] == Event(t, op, labels[c].f, reply)
  }

  lemma {:induction false} SameThreads(h: HashFn, a: Atom, labels: seq<Label>)
    requires AtomLegal(h, a, labels)
    ensures |AtomAfter(h, a, labels).calls| == |a.calls|
    decreases |labels|
  {
    if labels != [] {
      SameThreads(h, AtomApply(h, a, labels[0]), labels[1..]);
    }
  }

  lemma ReturnedLabel(h: HashFn, a: Atom, labels: seq<Label>, r: nat) returns (call: Completed)
    requires AtomLegal(h, a, labels) && forall t :: 0 <= t < |a.calls| ==> a.calls[t] == Quiet
    requires r < |labels| && labels[r].Returned?
    ensures IsCall(labels, TraceHistory(h, a, labels), call) && call.returned == r
  {
    var Returned(t, reply) := labels[r];
    Prefix(h, a, labels, r);
    SameThreads(h, a, labels[..r]);
    Story(h, a, labels, r, t);
    var op := AtomAfter(h, a, labels[..r]).calls[t].op;
    var i: nat, c: nat :| CommittedAt(h, a, labels, r, t, op, reply, i, c);
    EventAt(h, a, labels, c);
    call := Completed(t, op, reply, i, c, r, Commits(labels[..c]));
  }

  /** Every call that returns, in every run, is one event of the history, committed between its invocation
      and its return, and returns that event's reply. */
  lemma ReturnedCall(cfg: Config, n: nat, run: seq<Action>, r: nat) returns (call: Completed)
    requires Legal(cfg, Init(n), run)
    requires r < |Trace(cfg, Init(n), run)| && Trace(cfg, Init(n), run)[r].Returned?
    ensures IsCall(Trace(cfg, Init(n), run), History(cfg, Init(n), run), call) && call.returned == r
  {
    InitInv(cfg.h, n);
    SameHistory(cfg, Init(n), run);
    call := ReturnedLabel(cfg.h, AtomOf(Init(n)), Trace(cfg, Init(n), run), r);
  }

  /** Real-time order: a call that returns before another is invoked stands before it in the history. */
  lemma RealTimeOrder(labels: seq<Label>, es: seq<Event>, first: Completed, second: Completed)
    requires IsCall(labels, es, first) && IsCall(labels, es, second) && first.returned < second.invoked
    ensures first.place < second.place
  {
    CommitsGrow(labels, first.committed, second.committed);
  }
}
