/** The circuit breaker: consecutive failures open it, one probe per epoch may close it. */
module Breaker {
  import opened Basics

  datatype CircuitState = Closed | HalfOpen | Open

  datatype Completion = Success | Failure | Abort

  datatype Circuit = Circuit(state: CircuitState, consecutive: nat, openUntil: int, probeInFlight: bool, epoch: nat)

  datatype Config = Config(failures: nat, openFor: nat)

  const NEW_CIRCUIT := Circuit(Closed, 0, 0, false, 0)

  /** `once` is the permit's sync.Once: finishing twice has no further effect. */
  datatype Permit = Permit(epoch: nat, probe: bool, finished: bool)

  datatype Transition = Transition(from: CircuitState, to: CircuitState, accepted: bool)

  // ---------------------------------------------------------------- transitions

  function Advance(c: Circuit, now: int): Circuit {
    if c.state.Open? && now >= c.openUntil then c.(state := HalfOpen, probeInFlight := false, epoch := c.epoch + 1)
    else c
  }

  function Opened(c: Circuit, config: Config, now: int): Circuit {
    c.(state := Open, openUntil := now + config.openFor, probeInFlight := false, epoch := c.epoch + 1)
  }

  function Reclosed(c: Circuit): Circuit {
    Circuit(Closed, 0, 0, false, c.epoch + 1)
  }

  predicate Admits(c: Circuit) {
    c.state.Closed? || (c.state.HalfOpen? && !c.probeInFlight)
  }

  predicate Accepts(c: Circuit, epoch: nat, probe: bool) {
    epoch == c.epoch && (if c.state.Closed? then !probe else c.state.HalfOpen? && probe && c.probeInFlight)
  }

  /** complete. */
  function Completed(c: Circuit, config: Config, epoch: nat, probe: bool, result: Completion, now: int): Circuit {
    if !Accepts(c, epoch, probe) then c
    else if c.state.Closed? then
      match result
      case Success => c.(consecutive := 0)
      case Failure =>
        var failed := c.(consecutive := c.consecutive + 1);
        if failed.consecutive >= config.failures then Opened(failed, config, now) else failed
      case Abort => c
    else if result.Success? then Reclosed(c) else Opened(c, config, now)
  }

  // -------------------------------------------------------------------- history

  /** Failures since the last success; aborts are no evidence either way. */
  function Streak(accepted: seq<Completion>): nat {
    if accepted == [] then 0
    else match accepted[|accepted| - 1]
      case Success => 0
      case Failure => Streak(accepted[..|accepted| - 1]) + 1
      case Abort => Streak(accepted[..|accepted| - 1])
  }

  function Failures(accepted: seq<Completion>): nat {
    if accepted == [] then 0
    else Failures(accepted[..|accepted| - 1]) + if accepted[|accepted| - 1].Failure? then 1 else 0
  }

  /** A streak of n is n failures in a row of accepted completions without a success. */
  lemma {:induction false} StreakIsConsecutive(accepted: seq<Completion>)
    ensures exists i :: 0 <= i <= |accepted| && Failures(accepted[i..]) == Streak(accepted) && Success !in accepted[i..]
    decreases |accepted|
  {
    if accepted == [] || accepted[|accepted| - 1].Success? {
      assert accepted[|accepted|..] == [];
    } else {
      var shorter := accepted[..|accepted| - 1];
      StreakIsConsecutive(shorter);
      var i :| 0 <= i <= |shorter| && Failures(shorter[i..]) == Streak(shorter) && Success !in shorter[i..];
      assert accepted[i..][..|accepted| - 1 - i] == shorter[i..];
      assert accepted[i..] == shorter[i..] + [accepted[|accepted| - 1]];
    }
  }

  ghost predicate Live(p: Permit, c: Circuit) {
    p.epoch == c.epoch && p.probe && !p.finished
  }

  /**
   * The permits handed out so far agree with the circuit: the slot is taken
   * exactly while one unfinished probe of this epoch exists.
   */
  ghost predicate PermitsAgree(c: Circuit, permits: seq<Permit>) {
    && (forall p :: p in permits ==> p.epoch <= c.epoch)
    && (c.probeInFlight <==> exists i :: 0 <= i < |permits| && Live(permits[i], c))
    && (forall i, j :: 0 <= i < |permits| && 0 <= j < |permits| && Live(permits[i], c) && Live(permits[j], c) ==>
      i == j)
    && (forall p :: p in permits && p.epoch == c.epoch ==> if p.probe then c.state.HalfOpen? && !p.finished
      else c.state.Closed?)
    && (c.probeInFlight ==> c.state.HalfOpen?)
  }

  ghost predicate HistoryAgrees(c: Circuit, config: Config, accepted: seq<Completion>) {
    c.state.Closed? ==> c.consecutive == Streak(accepted) && c.consecutive < config.failures
  }

  /** Finishing a permit of another epoch leaves every live permit in place. */
  lemma StaleFinish(c: Circuit, permits: seq<Permit>, id: nat)
    requires PermitsAgree(c, permits) && id < |permits| && permits[id].epoch != c.epoch
    ensures PermitsAgree(c, permits[id := permits[id].(finished := true)])
  {
    var after := permits[id := permits[id].(finished := true)];
    forall i | 0 <= i < |permits|
      ensures Live(after[i], c) <==> Live(permits[i], c)
    {
    }
  }

  class Breaker {
    const config: Config
    var circuit: Circuit
    var permits: seq<Permit>
    /** The completions accepted since the epoch began. */
    ghost var accepted: seq<Completion>
    /** When the breaker last opened. */
    ghost var openedAt: int

    ghost predicate Valid()
      reads this
    {
      && (circuit.state.Open? ==> circuit.openUntil == openedAt + config.openFor)
      && config.failures > 0 && config.openFor > 0 && PermitsAgree(circuit, permits)
        && HistoryAgrees(circuit, config, accepted)
    }

    constructor (config: Config)
      requires config.failures > 0 && config.openFor > 0
      ensures Valid() && circuit == NEW_CIRCUIT && this.config == config && permits == []
    {
      this.config, this.circuit, this.permits, this.accepted, this.openedAt := config, NEW_CIRCUIT, [], [], 0;
    }

    method AdvanceLocked(now: int)
      requires Valid()
      modifies this`circuit, this`accepted
      ensures Valid() && circuit == Advance(old(circuit), now)
    {
      if circuit.state.Open? && now >= circuit.openUntil {
        circuit := circuit.(state := HalfOpen, probeInFlight := false, epoch := circuit.epoch + 1);
        accepted := [];
      }
    }

    /** Allow: a normal permit while closed, the one probe permit while half open. */
    method Allow(now: int) returns (permit: Option<nat>)
      requires Valid()
      modifies this
      ensures Valid()
      ensures permit.Some? <==> Admits(Advance(old(circuit), now))
      ensures permit.Some? && old(circuit).state.Open? ==> now >= old(openedAt) + config.openFor
      ensures permit.None? ==> circuit == Advance(old(circuit), now) && permits == old(permits)
      ensures permit.Some? ==>
        && permit.value == |old(permits)|
        && permits == old(permits) + [Permit(circuit.epoch, circuit.state.HalfOpen?, false)]
        && circuit == Advance(old(circuit), now).(probeInFlight := circuit.state.HalfOpen?)
    {
      AdvanceLocked(now);
      if circuit.state.Closed? {
        permits := permits + [Permit(circuit.epoch, false, false)];
        return Some(|permits| - 1);
      }
      if circuit.state.Open? || circuit.probeInFlight {
        return None;
      }
      permits := permits + [Permit(circuit.epoch, true, false)];
      circuit := circuit.(probeInFlight := true);
      assert Live(permits[|permits| - 1], circuit);
      return Some(|permits| - 1);
    }

    /**
     * Permit.finish: the first completion counts, and only in its own epoch.
     * The breaker leaves the closed state only at `failures` consecutive
     * accepted failures of the epoch.
     */
    method Finish(id: nat, result: Completion, now: int) returns (transition: Transition)
      requires Valid() && id < |permits|
      modifies this
      ensures Valid() && permits == old(permits)[id := old(permits)[id].(finished := true)]
      ensures circuit == if old(permits)[id].finished then old(circuit)
        else Completed(old(circuit), config, old(permits)[id].epoch, old(permits)[id].probe, result, now)
      ensures old(permits)[id].epoch < old(circuit).epoch ==> circuit == old(circuit)
      ensures old(circuit).state.Closed? && !circuit.state.Closed? ==>
        result.Failure? && Streak(old(accepted) + [result]) == config.failures
      ensures transition.from == old(circuit).state && transition.to == circuit.state
    {
      var p := permits[id];
      transition := Transition(circuit.state, circuit.state, false);
      if p.finished {
        return;
      }
      assert p in permits && (p.epoch == circuit.epoch && p.probe ==> Live(permits[id], circuit));
      assert Accepts(circuit, p.epoch, p.probe) <==> p.epoch == circuit.epoch;
      permits := permits[id := p.(finished := true)];
      if !Accepts(circuit, p.epoch, p.probe) {
        StaleFinish(circuit, old(permits), id);
        return;
      }
      assert (accepted + [result])[..|accepted|] == accepted;
      accepted := accepted + [result];
      if circuit.state.Closed? {
        match result {
          case Success => circuit := circuit.(consecutive := 0);
          case Failure =>
            circuit := circuit.(consecutive := circuit.consecutive + 1);
            if circuit.consecutive >= config.failures {
              OpenLocked(now);
            }
          case Abort =>
        }
      } else if result.Success? {
        circuit := Circuit(Closed, 0, 0, false, circuit.epoch + 1);
        accepted := [];
      } else {
        OpenLocked(now);
      }
      transition := Transition(transition.from, circuit.state, true);
    }

    method OpenLocked(now: int)
      modifies this`circuit, this`accepted, this`openedAt
      ensures circuit == Opened(old(circuit), config, now) && openedAt == now
    {
      openedAt := now;
      circuit := circuit.(state := Open, openUntil := now + config.openFor, probeInFlight := false,
        epoch := circuit.epoch + 1);
      accepted := [];
    }

    /** withHalfOpenIdle: whether a durable probe candidate may be released now. */
    method HalfOpenIdle(epoch: nat, now: int) returns (admitted: bool)
      requires Valid()
      modifies this`circuit, this`accepted
      ensures Valid() && circuit == Advance(old(circuit), now)
      ensures admitted <==> circuit.state.HalfOpen? && circuit.epoch == epoch && !circuit.probeInFlight
      ensures admitted ==> forall i :: 0 <= i < |permits| ==> !Live(permits[i], circuit)
    {
      AdvanceLocked(now);
      admitted := circuit.state.HalfOpen? && circuit.epoch == epoch && !circuit.probeInFlight;
    }
  }
}
