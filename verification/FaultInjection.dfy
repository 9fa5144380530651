/** The fault-injecting wrapper around a chunk store. */
module FaultInjection {
  import opened Prelude
  import opened AtomicStore

  datatype Call =
    | DoPut(id: Digest, data: Bytes)
    | DoGet(id: Digest)
    | DoVerify(id: Digest)
    | DoDelete(id: Digest)
    | DoExists(id: Digest)
    | DoStats
    | DoList

  datatype Answer =
    | Success
    | Contents(bytes: Bytes)
    | Present(flag: bool)
    | Stats(count: nat, used: nat, free: nat)
    | Ids(ids: seq<Digest>)
    | Error(kind: StoreError)

  /** Any chunk store at all: a state and what a call does to it. */
  type Delegate<!S> = (S, Call) -> (S, Answer)

  /** An injected fault, as each of the seven operations reports it. */
  function FaultAnswer(call: Call, e: StoreError): Answer
  {
    match call
    case DoExists(_) => Present(false)
    case DoStats => Stats(0, 0, 0)
    case DoList => Ids([])
    case _ => Error(e)
  }

  /** What a caller sees of a fault `e`: an error where the operation can report one, and otherwise the
      answer of a store that holds nothing. */
  predicate Refused(call: Call, answer: Answer, e: StoreError)
  {
    && (call.DoPut? || call.DoGet? || call.DoVerify? || call.DoDelete? ==> answer == Error(e))
    && (call.DoExists? ==> answer == Present(false))
    && (call.DoStats? ==> answer == Stats(0, 0, 0))
    && (call.DoList? ==> answer == Ids([]))
  }

  datatype Faults = Faults(oneShot: Option<StoreError>, nth: Option<(nat, StoreError)>, calls: nat, latency: nat)

  const NO_FAULTS := Faults(None, None, 0, 0)

  datatype Verdict = Verdict(faults: Faults, error: Option<StoreError>)

  /** ShouldInjectFault: every call is counted, a one-shot fault goes first. */
  function Decide(fs: Faults): Verdict
  {
    var calls := Wrap64(fs.calls + 1);
    if fs.oneShot.Some? then Verdict(fs.(calls := calls, oneShot := None), fs.oneShot)
    else Verdict(fs.(calls := calls), if fs.nth.Some? && calls > fs.nth.value.0 then Some(fs.nth.value.1) else None)
  }

  datatype Cmd =
    | InjectNext(e: StoreError)
    | InjectAfter(n: nat, e: StoreError)
    | InjectLatency(ms: nat)
    | Clear
    | Do(call: Call)

  function FaultsAfter(fs: Faults, cmd: Cmd): Faults
  {
    match cmd
    case InjectNext(e) => fs.(oneShot := Some(e))
    case InjectAfter(n, e) => fs.(nth := Some((n, e)), calls := 0)
    case InjectLatency(ms) => fs.(latency := ms)
    case Clear => NO_FAULTS
    case Do(_) => Decide(fs).faults
  }

  datatype Wrapper<S> = Wrapper(faults: Faults, inner: S)

  /** One wrapped operation. */
  function Perform<S>(step: Delegate<S>, w: Wrapper<S>, call: Call): (Wrapper<S>, Answer)
  {
    var v := Decide(w.faults);
    if v.error.Some? then (Wrapper(v.faults, w.inner), FaultAnswer(call, v.error.value))
    else (Wrapper(v.faults, step(w.inner, call).0), step(w.inner, call).1)
  }

  class FaultInjectingChunkStore<S> {
    const step: Delegate<S>
    var inner: S
    var oneShot: Option<StoreError>
    var nth: Option<(nat, StoreError)>
    var calls: nat
    var latency: nat

    ghost function View(): Wrapper<S> reads this { Wrapper(Faults(oneShot, nth, calls, latency), inner) }

    constructor (step: Delegate<S>, inner: S)
      ensures this.step == step && View() == Wrapper(NO_FAULTS, inner)
    {
      this.step := step;
      this.inner := inner;
      oneShot, nth, calls, latency := None, None, 0, 0;
    }

    method InjectFailureOnNextCall(e: StoreError)
      modifies this
      ensures View() == Wrapper(FaultsAfter(old(View()).faults, InjectNext(e)), old(inner))
    {
      oneShot := Some(e);
    }

    method InjectFailureAfterNCalls(n: nat, e: StoreError)
      modifies this
      ensures View() == Wrapper(FaultsAfter(old(View()).faults, InjectAfter(n, e)), old(inner))
    {
      nth := Some((n, e));
      calls := 0;
    }

    method SetLatency(ms: nat)
      modifies this
      ensures View() == Wrapper(FaultsAfter(old(View()).faults, InjectLatency(ms)), old(inner))
    {
      latency := ms;
    }

    method ClearInjectedFaults()
      modifies this
      ensures View() == Wrapper(FaultsAfter(old(View()).faults, Clear), old(inner))
    {
      oneShot := None;
      nth := None;
      calls := 0;
      latency := 0;
    }

    method ShouldInjectFault() returns (fault: Option<StoreError>)
      modifies this`calls, this`oneShot
      ensures Verdict(View().faults, fault) == Decide(old(View()).faults)
    {
      calls := Wrap64(calls + 1);
      if oneShot.Some? {
        fault := oneShot;
        oneShot := None;
        return;
      }
      if nth.Some? {
        if calls > nth.value.0 { return Some(nth.value.1); }
      }
      fault := None;
    }

    /** Put, Get, VerifyOnly, Delete, Exists, GetStats and ListAllChunkIds share this shape. */
    method Operation(call: Call) returns (answer: Answer)
      modifies this
      ensures (View(), answer) == Perform(step, old(View()), call)
      ensures var e := Decide(old(View()).faults).error;
        if e.Some? then inner == old(inner) && Refused(call, answer, e.value) else (inner, answer) == step(old(inner), call)
    {
      var fault := ShouldInjectFault();
      if fault.Some? { return FaultAnswer(call, fault.value); }
      var after := step(inner, call);
      inner := after.0;
      answer := after.1;
    }
  }

  // ---------------------------------------------------------------------------------------------
  // Runs

  function WrapperAfter<S>(step: Delegate<S>, w: Wrapper<S>, cmds: seq<Cmd>): Wrapper<S>
    decreases |cmds|
  {
    if cmds == [] then w
    else
      var w' := if cmds[0].Do? then Perform(step, w, cmds[0].call).0 else w.(faults := FaultsAfter(w.faults, cmds[0]));
      WrapperAfter(step, w', cmds[1..])
  }

  /** The calls that reach the delegate. */
  function Passed(fs: Faults, cmds: seq<Cmd>): seq<Call>
    decreases |cmds|
  {
    if cmds == [] then []
    else
      (if cmds[0].Do? && Decide(fs).error.None? then [cmds[0].call] else [])
      + Passed(FaultsAfter(fs, cmds[0]), cmds[1..])
  }

  /** The answers to those calls, as the wrapper gives them. */
  function PassedAnswers<S>(step: Delegate<S>, w: Wrapper<S>, cmds: seq<Cmd>): seq<Answer>
    decreases |cmds|
  {
    if cmds == [] then []
    else if !cmds[0].Do? then PassedAnswers(step, w.(faults := FaultsAfter(w.faults, cmds[0])), cmds[1..])
    else
      var (w', answer) := Perform(step, w, cmds[0].call);
      (if Decide(w.faults).error.None? then [answer] else []) + PassedAnswers(step, w', cmds[1..])
  }

  /** The delegate run directly, without a wrapper. */
  function DelegateAfter<S>(step: Delegate<S>, inner: S, calls: seq<Call>): S
    decreases |calls|
  {
    if calls == [] then inner else DelegateAfter(step, step(inner, calls[0]).0, calls[1..])
  }

  function DelegateAnswers<S>(step: Delegate<S>, inner: S, calls: seq<Call>): seq<Answer>
    decreases |calls|
  {
    if calls == [] then [] else [step(inner, calls[0]).1] + DelegateAnswers(step, step(inner, calls[0]).0, calls[1..])
  }

  /** Refinement: for every sequence of injections, clears and operations, the delegate's final state and
      the answers of all unfaulted calls are those of running the delegate on the unfaulted calls alone. */
  lemma {:induction false} WrapperRefinesDelegate<S>(step: Delegate<S>, w: Wrapper<S>, cmds: seq<Cmd>)
    ensures WrapperAfter(step, w, cmds).inner == DelegateAfter(step, w.inner, Passed(w.faults, cmds))
    ensures PassedAnswers(step, w, cmds) == DelegateAnswers(step, w.inner, Passed(w.faults, cmds))
    decreases |cmds|
  {
    if cmds != [] {
      var w' := if cmds[0].Do? then Perform(step, w, cmds[0].call).0 else w.(faults := FaultsAfter(w.faults, cmds[0]));
      var rest := Passed(w'.faults, cmds[1..]);
      WrapperRefinesDelegate(step, w', cmds[1..]);
      if cmds[0].Do? && Decide(w.faults).error.None? {
        assert Passed(w.faults, cmds) == [cmds[0].call] + rest;
        assert Passed(w.faults, cmds)[1..] == rest;
      } else {
        assert Passed(w.faults, cmds) == rest;
      }
    }
  }

  // ---------------------------------------------------------------------------------------------
  // Which calls fail, said in terms of the command history alone

  function FaultState(cmds: seq<Cmd>): Faults
  {
    if cmds == [] then NO_FAULTS else FaultsAfter(FaultState(cmds[..|cmds| - 1]), cmds[|cmds| - 1])
  }

  /** A one-shot fault injected at `j` is still waiting: no call, clear or other one-shot since. */
  predicate Waiting(cmds: seq<Cmd>, j: nat, e: StoreError)
  {
    j < |cmds| && cmds[j] == InjectNext(e)
    && forall i :: j < i < |cmds| ==> !cmds[i].Do? && !cmds[i].Clear? && !cmds[i].InjectNext?
  }

  /** The counting fault armed at `j` is still armed: not cleared and not re-armed since. */
  predicate Armed(cmds: seq<Cmd>, j: nat, n: nat, e: StoreError)
  {
    j < |cmds| && cmds[j] == InjectAfter(n, e)
    && forall i :: j < i < |cmds| ==> !cmds[i].Clear? && !cmds[i].InjectAfter?
  }

  function CallCount(cmds: seq<Cmd>): nat
  {
    if cmds == [] then 0 else CallCount(cmds[..|cmds| - 1]) + (if cmds[|cmds| - 1].Do? then 1 else 0)
  }

  lemma {:induction false} OneShotMeaning(cmds: seq<Cmd>, e: StoreError)
    ensures FaultState(cmds).oneShot == Some(e) <==> exists j :: Waiting(cmds, j, e)
    decreases |cmds|
  {
    if cmds != [] {
      var n := |cmds| - 1;
      var init := cmds[..n];
      OneShotMeaning(init, e);
      match cmds[n]
      case InjectNext(x) =>
        if x == e { assert Waiting(cmds, n, e); }
      case Do(_) =>
      case Clear =>
      case _ =>
        forall j: nat ensures Waiting(cmds, j, e) <==> Waiting(init, j, e) {
          assert forall i :: 0 <= i < n ==> init[i] == cmds[i];
        }
    }
  }

  lemma {:induction false} ArmedMeaning(cmds: seq<Cmd>, j: nat, k: nat, e: StoreError)
    requires Armed(cmds, j, k, e)
    ensures FaultState(cmds).nth == Some((k, e))
    ensures FaultState(cmds).calls == Wrap64(CallCount(cmds[j + 1..]))
    decreases |cmds|
  {
    var n := |cmds| - 1;
    var init := cmds[..n];
    if j == n {
      assert cmds[j + 1..] == [];
    } else {
      assert forall i :: 0 <= i < n ==> init[i] == cmds[i];
      ArmedMeaning(init, j, k, e);
      assert cmds[j + 1..][..|cmds[j + 1..]| - 1] == init[j + 1..];
      WrapAdd(CallCount(init[j + 1..]), 1);
    }
  }

  lemma {:induction false} UnarmedMeaning(cmds: seq<Cmd>)
    requires forall j, k, e :: !Armed(cmds, j, k, e)
    ensures FaultState(cmds).nth == None
    decreases |cmds|
  {
    if cmds != [] {
      var n := |cmds| - 1;
      var init := cmds[..n];
      match cmds[n]
      case InjectAfter(k, e) => assert Armed(cmds, n, k, e);
      case Clear =>
      case _ =>
        forall j: nat, k, e ensures !Armed(init, j, k, e) {
          assert forall i :: 0 <= i < n ==> init[i] == cmds[i];
          assert !Armed(cmds, j, k, e);
        }
        UnarmedMeaning(init);
    }
  }

  /** A call after the history `cmds` fails exactly if a one-shot fault waits, or a counting fault armed
      with `k` is in force and this is at least the (k+1)-th call since (on a 64-bit counter);
      the one-shot fault wins, and it is counted like any other call. */
  lemma FaultDecision(cmds: seq<Cmd>)
    ensures var err := Decide(FaultState(cmds)).error;
      && (forall j, e :: Waiting(cmds, j, e) ==> err == Some(e))
      && ((forall j, e :: !Waiting(cmds, j, e)) ==>
            && (forall j, k, e :: Armed(cmds, j, k, e) ==>
                  err == if Wrap64(CallCount(cmds[j + 1..]) + 1) > k then Some(e) else None)
            && ((forall j, k, e :: !Armed(cmds, j, k, e)) ==> err == None))
  {
    var fs := FaultState(cmds);
    forall e ensures fs.oneShot == Some(e) <==> exists j :: Waiting(cmds, j, e) {
      OneShotMeaning(cmds, e);
    }
    forall j: nat, k: nat, e: StoreError | Armed(cmds, j, k, e)
      ensures fs.nth == Some((k, e)) && Wrap64(fs.calls + 1) == Wrap64(CallCount(cmds[j + 1..]) + 1)
    {
      ArmedMeaning(cmds, j, k, e);
      WrapAdd(CallCount(cmds[j + 1..]), 1);
    }
    if forall j, k, e :: !Armed(cmds, j, k, e) {
      UnarmedMeaning(cmds);
    }
  }

  /** After arming with `k`, the (k+1)-th and every later call fails, until cleared or re-armed
      (short of 2^64 calls, when the counter starts again). */
  lemma PastTheNthCall(cmds: seq<Cmd>, j: nat, k: nat, e: StoreError)
    requires Armed(cmds, j, k, e) && k <= CallCount(cmds[j + 1..]) < U64 - 1
    ensures Decide(FaultState(cmds)).error.Some?
  {
    FaultDecision(cmds);
  }

  /** The latency set at `j` is still in force. */
  predicate LatencySet(cmds: seq<Cmd>, j: nat, ms: nat)
  {
    j < |cmds| && cmds[j] == InjectLatency(ms)
    && forall i :: j < i < |cmds| ==> !cmds[i].Clear? && !cmds[i].InjectLatency?
  }

  lemma {:induction false} LatencyMeaning(cmds: seq<Cmd>, j: nat, ms: nat)
    requires LatencySet(cmds, j, ms)
    ensures FaultState(cmds).latency == ms
    decreases |cmds|
  {
    var n := |cmds| - 1;
    if j < n {
      assert forall i :: 0 <= i < n ==> cmds[..n][i] == cmds[i];
      LatencyMeaning(cmds[..n], j, ms);
    }
  }

  lemma {:induction false} NoLatencyMeaning(cmds: seq<Cmd>)
    requires forall j, ms :: !LatencySet(cmds, j, ms)
    ensures FaultState(cmds).latency == 0
    decreases |cmds|
  {
    if cmds != [] {
      var n := |cmds| - 1;
      match cmds[n]
      case InjectLatency(ms) => assert LatencySet(cmds, n, ms);
      case Clear =>
      case _ =>
        forall j: nat, ms ensures !LatencySet(cmds[..n], j, ms) {
          assert forall i :: 0 <= i < n ==> cmds[..n][i] == cmds[i];
          assert !LatencySet(cmds, j, ms);
        }
        NoLatencyMeaning(cmds[..n]);
    }
  }

  // ---------------------------------------------------------------------------------------------
  // What the caller sees

  lemma WrapperAfterSnoc<S>(step: Delegate<S>, w: Wrapper<S>, cmds: seq<Cmd>, cmd: Cmd, all: seq<Cmd>)
    requires all == cmds + [cmd]
    ensures WrapperAfter(step, w, all).faults == FaultsAfter(WrapperAfter(step, w, cmds).faults, cmd)
    decreases |cmds|
  {
    if cmds == [] {
      assert all[1..] == [];
    } else {
      var w' := if cmds[0].Do? then Perform(step, w, cmds[0].call).0 else w.(faults := FaultsAfter(w.faults, cmds[0]));
      assert all[0] == cmds[0] && all[1..] == cmds[1..] + [cmd];
      WrapperAfterSnoc(step, w', cmds[1..], cmd, all[1..]);
    }
  }

  /** The fault state depends on the commands alone, whatever the delegate does. */
  lemma {:induction false} WrapperFaults<S>(step: Delegate<S>, inner: S, cmds: seq<Cmd>)
    ensures WrapperAfter(step, Wrapper(NO_FAULTS, inner), cmds).faults == FaultState(cmds)
    decreases |cmds|
  {
    if cmds != [] {
      var n := |cmds| - 1;
      WrapperFaults(step, inner, cmds[..n]);
      WrapperAfterSnoc(step, Wrapper(NO_FAULTS, inner), cmds[..n], cmds[n], cmds);
    }
  }

  /** After any history of commands, a call that meets a one-shot fault, or a counting fault past its n-th call, is
      refused with that error and does not reach the delegate; every other call is the delegate's own. */
  lemma AnswerAfter<S>(step: Delegate<S>, inner: S, cmds: seq<Cmd>, call: Call)
    ensures var w := WrapperAfter(step, Wrapper(NO_FAULTS, inner), cmds); var (w', answer) := Perform(step, w, call);
      && (forall j, e :: Waiting(cmds, j, e) ==> w'.inner == w.inner && Refused(call, answer, e))
      && ((forall j, e :: !Waiting(cmds, j, e)) ==>
            && (forall j, k, e :: Armed(cmds, j, k, e) ==>
                  if Wrap64(CallCount(cmds[j + 1..]) + 1) > k then w'.inner == w.inner && Refused(call, answer, e)
                  else (w'.inner, answer) == step(w.inner, call))
            && ((forall j, k, e :: !Armed(cmds, j, k, e)) ==> (w'.inner, answer) == step(w.inner, call)))
  {
    WrapperFaults(step, inner, cmds);
    FaultDecision(cmds);
    forall e ensures Refused(call, FaultAnswer(call, e), e) {
    }
  }

  /** A refused call never looks like a success. */
  lemma RefusedIsNoSuccess(call: Call, answer: Answer, e: StoreError)
    requires Refused(call, answer, e)
    ensures answer != Success && !answer.Contents? && answer != Present(true)
  {
  }

  lemma {:induction false} CallCountRepeat(calls: seq<Cmd>)
    requires forall i :: 0 <= i < |calls| ==> calls[i].Do?
    ensures CallCount(calls) == |calls|
    decreases |calls|
  {
    if calls != [] {
      CallCountRepeat(calls[..|calls| - 1]);
    }
  }

  /** Beyond it: armed to fail every call, the wrapper lets the 2^64-th one through. */
  lemma CounterWraps(e: StoreError, calls: seq<Cmd>)
    requires |calls| == U64 - 1 && forall i :: 0 <= i < |calls| ==> calls[i] == Do(DoStats)
    ensures var cmds := [InjectAfter(0, e)] + calls;
      Armed(cmds, 0, 0, e) && Decide(FaultState(cmds)).error == None
  {
    var cmds := [InjectAfter(0, e)] + calls;
    assert cmds[1..] == calls;
    CallCountRepeat(calls);
    FaultDecision(cmds);
    forall j: nat, x: StoreError ensures !Waiting(cmds, j, x) {
    }
  }
}
