/** The in-memory store's lease, where each call is one step, and how it agrees with the conditional store. */
module MemoryLease {
  import opened Milliseconds
  import opened Common
  import opened Leadership

  /** What an acquire leaves behind; the expiry of this store's leases is in nanoseconds. */
  function Acquire(lease: Option<Lease>, last: nat, now: int, h: Holder, ttl: int): (Option<Lease>, nat, Option<Lease>) {
    if ttl <= 0 then (lease, last, None)
    else if lease.Some? && now < lease.value.expires then
      if lease.value.holder != h then (lease, last, None) else
        var renewed := lease.value.(expires := now + ttl);
        (Some(renewed), last, Some(renewed))
    else
      var taken := Lease(h, last + 1, now + ttl);
      (Some(taken), last + 1, Some(taken))
  }

  function Renew(lease: Option<Lease>, now: int, h: Holder, token: nat, ttl: int): (Option<Lease>, Option<Lease>) {
    if ttl <= 0 || lease.None? || now >= lease.value.expires || lease.value.holder != h || lease.value.token != token
    then (lease, None) else
      var renewed := lease.value.(expires := now + ttl);
      (Some(renewed), Some(renewed))
  }

  class MemoryLeaseStore {
    var lease: Option<Lease>
    var lastFencingToken: nat

    constructor ()
      ensures lease == None && lastFencingToken == 0
    {
      lease, lastFencingToken := None, 0;
    }

    method AcquireLease(now: int, h: Holder, ttl: int) returns (res: Option<Lease>)
      modifies this
      ensures (lease, lastFencingToken, res) == Acquire(old(lease), old(lastFencingToken), now, h, ttl)
      ensures res.None? <==> ttl <= 0 || (old(lease).Some? && now < old(lease).value.expires && old(lease).value.holder != h)
      ensures res.None? ==> lease == old(lease) && lastFencingToken == old(lastFencingToken)
      ensures res.Some? ==> lease == res && res.value.holder == h && res.value.expires == now + ttl
      ensures res.Some? ==> if old(lease).Some? && now < old(lease).value.expires
                            then res.value.token == old(lease).value.token && lastFencingToken == old(lastFencingToken)
                            else res.value.token == lastFencingToken == old(lastFencingToken) + 1
    {
      if ttl <= 0 {
        return None;
      }
      if lease.Some? && now < lease.value.expires {
        if lease.value.holder != h {
          return None;
        }
        lease := Some(lease.value.(expires := now + ttl));
        return lease;
      }
      lastFencingToken := lastFencingToken + 1;
      lease := Some(Lease(h, lastFencingToken, now + ttl));
      res := lease;
    }

    method RenewLease(now: int, h: Holder, token: nat, ttl: int) returns (res: Option<Lease>)
      modifies this`lease
      ensures (lease, res) == Renew(old(lease), now, h, token, ttl)
      ensures res.Some? <==> && ttl > 0 && old(lease).Some? && now < old(lease).value.expires
                             && old(lease).value.holder == h && old(lease).value.token == token
      ensures res.None? ==> lease == old(lease)
      ensures res.Some? ==> lease == res && res.value == Lease(h, token, now + ttl)
    {
      if ttl <= 0 {
        return None;
      }
      if lease.None? || now >= lease.value.expires {
        return None;
      }
      if lease.value.holder != h || lease.value.token != token {
        return None;
      }
      lease := Some(lease.value.(expires := now + ttl));
      res := lease;
    }
  }

  // ---------- sequences of calls ----------

  datatype Call = AcquireCall(now: int, holder: Holder, ttl: int) | RenewCall(now: int, holder: Holder, token: nat, ttl: int)

  /** What the store holds, and what the last call returned. */
  datatype State = State(lease: Option<Lease>, last: nat, granted: Option<Lease>)

  function After(s: State, c: Call): State {
    match c
    case AcquireCall(now, h, ttl) => var (lease, last, res) := Acquire(s.lease, s.last, now, h, ttl); State(lease, last, res)
    case RenewCall(now, h, token, ttl) => var (lease, res) := Renew(s.lease, now, h, token, ttl); State(lease, s.last, res)
  }

  /** What one call does, by field. It is refused, and changes nothing, exactly for a bad time to live, or while another
      holder's lease is unexpired, or, as a renewal, without its own unexpired lease under its token. Otherwise it
      returns the stored lease, which is the caller's, from now on for the time to live; the token is the old one for
      an extension and the next one for a new lease. */
  lemma CallLaw(s: State, c: Call)
    ensures var unexpired := s.lease.Some? && c.now < s.lease.value.expires;
            var refused := if c.AcquireCall? then c.ttl <= 0 || (unexpired && s.lease.value.holder != c.holder)
                           else c.ttl <= 0 || !unexpired || s.lease.value.holder != c.holder || s.lease.value.token != c.token;
            var t := After(s, c);
            && (t.granted.None? <==> refused)
            && (refused ==> t.lease == s.lease && t.last == s.last)
            && (!refused ==> t.granted == t.lease && t.lease.Some? && t.lease.value.holder == c.holder && t.lease.value.expires == c.now + c.ttl)
            && (!refused && unexpired ==> t.lease.value.token == s.lease.value.token && t.last == s.last)
            && (!refused && !unexpired ==> t.lease.value.token == t.last == s.last + 1)
  {
  }

  ghost predicate Run(states: seq<State>, calls: seq<Call>) {
    && |states| == |calls| + 1 && states[0] == State(None, 0, None)
    && forall i :: 0 <= i < |calls| ==> states[i + 1] == After(states[i], calls[i])
  }

  /** Every token up to the last belongs to the holder it was first granted to. */
  lemma {:induction false} StoredToken(states: seq<State>, calls: seq<Call>, i: nat)
    requires Run(states, calls) && i < |states|
    ensures states[i].lease.Some? ==> states[i].lease.value.token == states[i].last >= 1
    ensures states[i].lease.None? ==> states[i].last == 0
  {
    if i > 0 {
      StoredToken(states, calls, i - 1);
      CallLaw(states[i - 1], calls[i - 1]);
    }
  }

  /** From a grant on, as long as its token is the last one, the stored lease is its holder's. */
  lemma {:induction false} TokenStays(states: seq<State>, calls: seq<Call>, i: nat, j: nat)
    requires Run(states, calls) && 0 < i <= j < |states| && states[i].granted.Some?
    ensures states[j].lease.Some? && states[j].last >= states[i].granted.value.token
    ensures states[j].last == states[i].granted.value.token ==>
              states[j].lease.value.holder == states[i].granted.value.holder
  {
    CallLaw(states[i - 1], calls[i - 1]);
    StoredToken(states, calls, i - 1);
    if i < j {
      TokenStays(states, calls, i, j - 1);
      StoredToken(states, calls, j - 1);
      CallLaw(states[j - 1], calls[j - 1]);
    }
  }

  /** No token is ever granted to two holders, whatever the clocks do. */
  lemma TokensHaveOneHolder(states: seq<State>, calls: seq<Call>, i: nat, j: nat)
    requires Run(states, calls) && 0 < i <= j < |states| && states[i].granted.Some? && states[j].granted.Some?
    ensures states[i].granted.value.token <= states[j].granted.value.token
    ensures states[i].granted.value.token == states[j].granted.value.token ==>
              states[i].granted.value.holder == states[j].granted.value.holder
  {
    TokenStays(states, calls, i, j);
    CallLaw(states[j - 1], calls[j - 1]);
    StoredToken(states, calls, j);
  }

  // ---------- exclusion ----------

  /** The clock of the calls never goes back. */
  ghost predicate ClockRises(calls: seq<Call>) {
    forall i, j :: 0 <= i < j < |calls| ==> calls[i].now <= calls[j].now
  }

  /** The call would extend an unexpired lease to an earlier expiry than it has. */
  predicate Shortens(s: State, c: Call) {
    After(s, c).granted.Some? && s.lease.Some? && c.now < s.lease.value.expires && c.now + c.ttl < s.lease.value.expires
  }

  ghost predicate NeverShortens(states: seq<State>, calls: seq<Call>)
    requires |states| == |calls| + 1
  {
    forall i :: 0 <= i < |calls| ==> !Shortens(states[i], calls[i])
  }

  /** Every holder always asks for the same time to live. */
  ghost predicate SteadyTimes(calls: seq<Call>) {
    forall i, j :: 0 <= i < |calls| && 0 <= j < |calls| && calls[i].holder == calls[j].holder ==> calls[i].ttl == calls[j].ttl
  }

  /** A grant is within the stored expiry, if it is of the stored token, and expired otherwise. */
  lemma {:induction false} GrantsAreBounded(states: seq<State>, calls: seq<Call>, i: nat, j: nat)
    requires Run(states, calls) && NeverShortens(states, calls) && ClockRises(calls)
    requires 0 < i <= j < |states| && states[i].granted.Some?
    ensures var g, s := states[i].granted.value, states[j];
            && s.lease.Some? && g.token <= s.last
            && if g.token == s.last then s.lease.value.holder == g.holder && g.expires <= s.lease.value.expires
               else g.expires <= calls[j - 1].now
  {
    CallLaw(states[i - 1], calls[i - 1]);
    StoredToken(states, calls, i - 1);
    TokenStays(states, calls, i, j);
    if i < j {
      GrantsAreBounded(states, calls, i, j - 1);
      StoredToken(states, calls, j - 1);
      CallLaw(states[j - 1], calls[j - 1]);
      assert !Shortens(states[j - 1], calls[j - 1]);
      assert calls[j - 2].now <= calls[j - 1].now;
    }
  }

  /** As long as no call shortens a lease, two granted leases that have not expired at the latest call are of one
      holder. */
  lemma UnexpiredGrantsAgree(states: seq<State>, calls: seq<Call>, i: nat, j: nat, n: nat)
    requires Run(states, calls) && NeverShortens(states, calls) && ClockRises(calls)
    requires 0 < i <= n < |states| && 0 < j <= n && states[i].granted.Some? && states[j].granted.Some?
    requires calls[n - 1].now < states[i].granted.value.expires && calls[n - 1].now < states[j].granted.value.expires
    ensures states[i].granted.value.holder == states[j].granted.value.holder
    ensures states[n].lease.Some? && states[n].lease.value.holder == states[i].granted.value.holder
  {
    GrantsAreBounded(states, calls, i, n);
    GrantsAreBounded(states, calls, j, n);
  }

  /** The stored lease was granted by some call, with that call's clock and time to live. */
  lemma {:induction false} StoredWasGranted(states: seq<State>, calls: seq<Call>, i: nat) returns (k: nat)
    requires Run(states, calls) && i < |states| && states[i].lease.Some?
    ensures k < i && calls[k].holder == states[i].lease.value.holder
    ensures states[i].lease.value.expires == calls[k].now + calls[k].ttl
  {
    CallLaw(states[i - 1], calls[i - 1]);
    if states[i].granted.Some? {
      k := i - 1;
    } else {
      k := StoredWasGranted(states, calls, i - 1);
    }
  }

  /** Holders that always ask for the same time to live, as the coordinators do, never shorten a lease. */
  lemma SteadyTimesNeverShorten(states: seq<State>, calls: seq<Call>)
    requires Run(states, calls) && ClockRises(calls) && SteadyTimes(calls)
    ensures NeverShortens(states, calls)
  {
    forall i | 0 <= i < |calls| ensures !Shortens(states[i], calls[i]) {
      if Shortens(states[i], calls[i]) {
        CallLaw(states[i], calls[i]);
        var k := StoredWasGranted(states, calls, i);
      }
    }
  }

  /** And shortening is what it takes: from any state whose unexpired lease a call shortens, another holder can acquire
      at the new expiry, while the lease granted before has not expired. */
  lemma ShorteningLetsAnotherIn(s: State, c: Call, other: Holder, ttl: int)
    requires s.lease.Some? && Shortens(s, c) && other != s.lease.value.holder && ttl > 0
    ensures var now := c.now + c.ttl;
            var t := After(After(s, c), AcquireCall(now, other, ttl));
            && t.granted.Some? && t.granted.value.holder == other && now < t.granted.value.expires
            && now < s.lease.value.expires
  {
    CallLaw(s, c);
    CallLaw(After(s, c), AcquireCall(c.now + c.ttl, other, ttl));
  }

  /** The same lease as the conditional store would keep it. */
  function Cut(lease: Option<Lease>): Option<Lease> {
    if lease.Some? then Some(lease.value.(expires := Ms(lease.value.expires))) else None
  }

  /** The conditional store never renews what this one would not, and claims what this one still holds only
      in the last millisecond; on whole milliseconds the two agree. */
  lemma StoresAgree(lease: Option<Lease>, last: nat, now: int, h: Holder, token: nat, ttl: int)
    requires ttl > 0
    ensures MayRenew(Cut(lease), h, token, now) ==> Renew(lease, now, h, token, ttl).1.Some?
    ensures lease.Some? && now < lease.value.expires && MayClaim(Cut(lease), now) ==> Ms(now) == Ms(lease.value.expires)
    ensures lease.Some? && lease.value.expires % MILLI == 0 ==>
              && (MayRenew(Cut(lease), h, token, now) <==> Renew(lease, now, h, token, ttl).1.Some?)
              && (MayClaim(Cut(lease), now) <==> Acquire(lease, last, now, h, ttl).1 == last + 1)
              && (MayClaim(Cut(lease), now) || lease.value.holder == h <==> Acquire(lease, last, now, h, ttl).2.Some?)
  {
    if lease.Some? {
      MillisecondsAgree(now, Ms(lease.value.expires));
    }
  }
}
