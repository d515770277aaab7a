/** Two runs of the conditional-update ledger that show where its promises end: a re-read that is older
    than the refusal, and a time to live that ends within its own millisecond. */
module DynamoLimits {
  import opened Milliseconds
  import opened Common
  import opened DynamoLedger
  import L = Ledger

  function Start(): State { State([Version(None, 0)], map[0 := Client(Idle, {}), 1 := Client(Idle, {})]) }

  /** A run with one more step. */
  lemma Takes(states: seq<State>, steps: seq<Step>, least: int, step: Step, t: State) returns (states': seq<State>, steps': seq<Step>)
    requires Run(states, steps, least) && LongEnough(step, least)
    requires Enabled(states[|steps|], step) && t == Apply(states[|steps|], step)
    ensures Run(states', steps', least) && |steps'| == |steps| + 1 && states'[|steps'|] == t && states' == states + [t]
    ensures steps' == steps + [step]
  {
    states', steps' := states + [t], steps + [step];
    forall i | 0 <= i < |steps'|
      ensures Enabled(states'[i], steps'[i]) && LongEnough(steps'[i], least) && states'[i + 1] == Apply(states'[i], steps'[i])
    {
      if i < |steps| {
        assert states'[i] == states[i] && states'[i + 1] == states[i + 1];
      }
    }
  }

  /** The state with these versions and these two clients. */
  function At(past: History, c: Client, d: Client): State { State(past, map[0 := c, 1 := d]) }

  const NOBODY: Version := Version(None, 0)

  const FIRST: Version := Version(Some(L.Processing(0, 1)), 0)

  const SECOND: Version := Version(Some(L.Processing(2 * MILLI, 12)), 0)

  /** What a claim that works leaves behind. */
  lemma Claims(s: State, client: nat, version: Version, leases: set<int>)
    requires client in s.clients && s.clients[client].pc.Updating?
    requires var pc := s.clients[client].pc;
             MayClaim(Current(s.past), pc.now) && version == Version(Some(L.Processing(pc.now, Ms(pc.now + pc.ttl))), client)
    requires leases == s.clients[client].leases + {s.clients[client].pc.now}
    ensures Apply(s, Move(client, Works, 0)) == State(s.past + [version], s.clients[client := Client(Idle, leases)])
  {
  }

  /** Client 0 leases the upload at instant zero for one millisecond. */
  lemma FirstLease() returns (states: seq<State>, steps: seq<Step>)
    ensures Run(states, steps, MILLI) && states[|steps|] == At([NOBODY, FIRST], Client(Idle, {0}), Client(Idle, {}))
  {
    var none := Client(Idle, {});
    states, steps := [Start()], [];
    states, steps := Takes(states, steps, MILLI, CallBegin(0, 0, MILLI), At([NOBODY], Client(Reading(0, MILLI), {}), none));
    states, steps := Takes(states, steps, MILLI, Move(0, Works, 0), At([NOBODY], Client(Updating(0, MILLI), {}), none));
    Claims(states[|steps|], 0, FIRST, {0});
    assert [NOBODY] + [FIRST] == [NOBODY, FIRST];
    states, steps := Takes(states, steps, MILLI, Move(0, Works, 0), At([NOBODY, FIRST], Client(Idle, {0}), none));
  }

  /** At two milliseconds client 1 reads the expired item and goes on to claim it. */
  lemma Expired() returns (states: seq<State>, steps: seq<Step>)
    ensures Run(states, steps, MILLI)
    ensures states[|steps|] == At([NOBODY, FIRST], Client(Idle, {0}), Client(Updating(2 * MILLI, MILLI), {}))
  {
    var now, both := 2 * MILLI, [NOBODY, FIRST];
    states, steps := FirstLease();
    states, steps := Takes(states, steps, MILLI, CallBegin(1, now, MILLI), At(both, Client(Idle, {0}), Client(Reading(now, MILLI), {})));
    states, steps := Takes(states, steps, MILLI, Move(1, Works, 1), At(both, Client(Idle, {0}), Client(Updating(now, MILLI), {})));
  }

  /** Client 0 claims it first, so that client 1's claim is refused. */
  lemma Refused() returns (states: seq<State>, steps: seq<Step>)
    ensures Run(states, steps, MILLI)
    ensures states[|steps|] == At([NOBODY, FIRST, SECOND], Client(Idle, {0, 2 * MILLI}), Client(Rereading(2 * MILLI, 2), {}))
  {
    var now, ten, both := 2 * MILLI, 10 * MILLI, [NOBODY, FIRST];
    var begun := Client(Updating(now, MILLI), {});
    states, steps := Expired();
    states, steps := Takes(states, steps, MILLI, CallBegin(0, now, ten), At(both, Client(Reading(now, ten), {0}), begun));
    states, steps := Takes(states, steps, MILLI, Move(0, Works, 1), At(both, Client(Updating(now, ten), {0}), begun));
    Claims(states[|steps|], 0, SECOND, {0, now});
    states, steps := Takes(states, steps, MILLI, Move(0, Works, 0), At(both + [SECOND], Client(Idle, {0, now}), begun));
    states, steps := Takes(states, steps, MILLI, Move(1, Works, 0), At(both + [SECOND], Client(Idle, {0, now}), Client(Rereading(now, 2), {})));
  }

  /** A re-read that still sees the first attempt makes client 1's begin succeed with neither a lease nor a
      commit, although every time to live is at least a millisecond. */
  lemma OldReadBeginsEmpty() returns (states: seq<State>, steps: seq<Step>, i: nat)
    ensures Run(states, steps, MILLI) && i < |steps| && steps[i].Move? && steps[i].access.Works?
    ensures Accessed(states[i], steps[i]).answer == Some(BeginEmpty)
  {
    states, steps := Refused();
    i := |steps|;
    var s := states[i];
    states, steps := Takes(states, steps, MILLI, Move(1, Works, 1), Apply(s, Move(1, Works, 1)));
  }

  /** With a time to live of one nanosecond two clients that begin at the same instant hold one attempt. */
  lemma ShortTimesShareAnAttempt() returns (states: seq<State>, steps: seq<Step>)
    ensures Run(states, steps, 1)
    ensures var clients := states[|steps|].clients; 0 in clients && 1 in clients && clients[0].leases == clients[1].leases == {0}
  {
    var none, held := Client(Idle, {}), Client(Idle, {0});
    var first, second := Version(Some(L.Processing(0, 0)), 0), Version(Some(L.Processing(0, 0)), 1);
    states, steps := [Start()], [];
    states, steps := Takes(states, steps, 1, CallBegin(0, 0, 1), At([NOBODY], Client(Reading(0, 1), {}), none));
    states, steps := Takes(states, steps, 1, Move(0, Works, 0), At([NOBODY], Client(Updating(0, 1), {}), none));
    Claims(states[|steps|], 0, first, {0});
    assert [NOBODY] + [first] == [NOBODY, first];
    states, steps := Takes(states, steps, 1, Move(0, Works, 0), At([NOBODY, first], held, none));
    states, steps := Takes(states, steps, 1, CallBegin(1, 0, 1), At([NOBODY, first], held, Client(Reading(0, 1), {})));
    states, steps := Takes(states, steps, 1, Move(1, Works, 1), At([NOBODY, first], held, Client(Updating(0, 1), {})));
    Claims(states[|steps|], 1, second, {0});
    assert [NOBODY, first] + [second] == [NOBODY, first, second];
    states, steps := Takes(states, steps, 1, Move(1, Works, 0), At([NOBODY, first, second], held, held));
  }
}
