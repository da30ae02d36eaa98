/** The nonce cache of the identity verifier: which calls are accepted, said of the earlier calls. */
module NonceWindow {

  type Time = int

  datatype Call = Call(nonce: string, now: Time)

  type Cache = map<string, Time>

  function Swept(seen: Cache, now: Time): Cache { map n | n in seen && seen[n] > now :: seen[n] }

  function Step(seen: Cache, c: Call, maxAge: int): Cache {
    if c.nonce in Swept(seen, c.now) then Swept(seen, c.now) else Swept(seen, c.now)[c.nonce := c.now + maxAge]
  }

  function Seen(calls: seq<Call>, maxAge: int): Cache {
    if calls == [] then map[] else Step(Seen(calls[..|calls| - 1], maxAge), calls[|calls| - 1], maxAge)
  }

  /** Call i is accepted. */
  predicate Accepted(calls: seq<Call>, maxAge: int, i: nat)
    requires i < |calls|
  {
    calls[i].nonce !in Swept(Seen(calls[..i], maxAge), calls[i].now)
  }

  /** The entry of call j outlives the sweeps of the calls j + 1 up to n. */
  ghost predicate Survives(calls: seq<Call>, maxAge: int, j: nat, n: nat)
    requires j < n <= |calls|
  {
    forall k :: j < k < n ==> calls[k].now < calls[j].now + maxAge
  }

  ghost predicate Holder(calls: seq<Call>, maxAge: int, nonce: string, j: nat, n: nat)
    requires n <= |calls|
  {
    j < n && calls[j].nonce == nonce && Accepted(calls, maxAge, j) && Survives(calls, maxAge, j, n)
  }

  /** An accepted call that every later sweep has left is in the cache, with its end. */
  lemma {:induction false} HolderIsSeen(calls: seq<Call>, maxAge: int, nonce: string, j: nat, n: nat)
    requires n <= |calls| && Holder(calls, maxAge, nonce, j, n)
    ensures nonce in Seen(calls[..n], maxAge) && Seen(calls[..n], maxAge)[nonce] == calls[j].now + maxAge
  {
    assert calls[..n][..n - 1] == calls[..n - 1] && calls[..n][n - 1] == calls[n - 1];
    if j < n - 1 {
      HolderIsSeen(calls, maxAge, nonce, j, n - 1);
    }
  }

  /** Whatever is in the cache was put there by such a call. */
  lemma {:induction false} SeenHasHolder(calls: seq<Call>, maxAge: int, nonce: string, n: nat) returns (j: nat)
    requires n <= |calls| && nonce in Seen(calls[..n], maxAge)
    ensures Holder(calls, maxAge, nonce, j, n)
  {
    var m := n - 1;
    assert calls[..n][..m] == calls[..m] && calls[..n][m] == calls[m];
    if nonce in Swept(Seen(calls[..m], maxAge), calls[m].now) {
      j := SeenHasHolder(calls, maxAge, nonce, m);
      HolderIsSeen(calls, maxAge, nonce, j, m);
    } else {
      j := m;
    }
  }

  /** A call is accepted exactly when every earlier accepted call with its nonce has been swept: the
      clock reached its end at that call or at one in between. */
  lemma AcceptedIff(calls: seq<Call>, maxAge: int, i: nat)
    requires i < |calls|
    ensures Accepted(calls, maxAge, i) <==>
      forall j: nat :: j < i && calls[j].nonce == calls[i].nonce && Accepted(calls, maxAge, j) ==>
        exists k :: j < k <= i && calls[k].now >= calls[j].now + maxAge
  {
    if !Accepted(calls, maxAge, i) {
      var j := SeenHasHolder(calls, maxAge, calls[i].nonce, i);
      HolderIsSeen(calls, maxAge, calls[i].nonce, j, i);
      assert forall k :: j < k <= i ==> calls[k].now < calls[j].now + maxAge;
    } else {
      forall j: nat | j < i && calls[j].nonce == calls[i].nonce && Accepted(calls, maxAge, j)
        ensures exists k :: j < k <= i && calls[k].now >= calls[j].now + maxAge
      {
        if Survives(calls, maxAge, j, i) {
          HolderIsSeen(calls, maxAge, calls[i].nonce, j, i);
          assert calls[i].now >= calls[j].now + maxAge;
        }
      }
    }
  }

  ghost predicate ClockRuns(calls: seq<Call>) { forall i, j :: 0 <= i <= j < |calls| ==> calls[i].now <= calls[j].now }

  /** With a clock that does not run backwards the cache is a sliding window: a nonce is refused
      exactly within maxAge of its last accepted use. */
  lemma SlidingWindow(calls: seq<Call>, maxAge: int, i: nat)
    requires i < |calls| && ClockRuns(calls)
    ensures Accepted(calls, maxAge, i) <==>
      forall j: nat :: j < i && calls[j].nonce == calls[i].nonce && Accepted(calls, maxAge, j) ==>
        calls[i].now - calls[j].now >= maxAge
  {
    AcceptedIff(calls, maxAge, i);
    forall j: nat | j < i
      ensures (exists k :: j < k <= i && calls[k].now >= calls[j].now + maxAge) <==>
        calls[i].now >= calls[j].now + maxAge
    {}
  }

  /** An envelope that is valid only until its nonce is forgotten is accepted at most once: after the
      first time, no call with its nonce is accepted up to that instant. */
  lemma OnceWhileValid(calls: seq<Call>, maxAge: int, i: nat, until: Time)
    requires i < |calls| && ClockRuns(calls) && Accepted(calls, maxAge, i) && until < calls[i].now + maxAge
    ensures forall j: nat :: i < j < |calls| && calls[j].nonce == calls[i].nonce && calls[j].now <= until ==>
      !Accepted(calls, maxAge, j)
  {
    forall j: nat | i < j < |calls| && calls[j].nonce == calls[i].nonce && calls[j].now <= until
      ensures !Accepted(calls, maxAge, j)
    {
      SlidingWindow(calls, maxAge, j);
    }
  }

  const SKEW: int := 30_000_000_000

  /** The time check of an envelope: not issued more than the skew ahead, and not older than maxAge. */
  predicate InTime(issuedAt: Time, now: Time, maxAge: int) { issuedAt <= now + SKEW && now - issuedAt <= maxAge }

  /** The validity of an envelope is one interval: from thirty seconds before it was issued up to its
      maximal age. */
  lemma ValidityWindow(issuedAt: Time, now: Time, maxAge: int)
    ensures InTime(issuedAt, now, maxAge) <==> issuedAt - 30_000_000_000 <= now <= issuedAt + maxAge
  {
  }

  /** An envelope is checked `lag` before its nonce is consumed. Accepted once later than that after it
      was issued, it is never accepted again: it gets too old before its nonce is forgotten. */
  lemma EnvelopeOnce(calls: seq<Call>, maxAge: int, i: nat, j: nat, issuedAt: Time, lag: nat)
    requires i < j < |calls| && ClockRuns(calls) && calls[j].nonce == calls[i].nonce && Accepted(calls, maxAge, i)
    requires InTime(issuedAt, calls[j].now - lag, maxAge) && issuedAt + lag < calls[i].now
    ensures !Accepted(calls, maxAge, j)
  {
    OnceWhileValid(calls, maxAge, i, calls[j].now);
  }

  lemma SeenAfter(calls: seq<Call>, c: Call, maxAge: int)
    ensures Seen(calls + [c], maxAge) == Step(Seen(calls, maxAge), c, maxAge)
    ensures Accepted(calls + [c], maxAge, |calls|) <==> c.nonce !in Swept(Seen(calls, maxAge), c.now)
  {
    assert (calls + [c])[..|calls|] == calls;
  }

  class IdentityVerifier {
    const maxAge: int
    var seenNonces: Cache
    ghost var calls: seq<Call>

    ghost predicate Valid()
      reads this
    {
      seenNonces == Seen(calls, maxAge)
    }

    constructor (maxAge: int)
      ensures Valid() && calls == [] && this.maxAge == if maxAge > 0 then maxAge else 120_000_000_000
    {
      this.maxAge := if maxAge > 0 then maxAge else 120_000_000_000;
      seenNonces, calls := map[], [];
    }

    method Sweep(now: Time)
      modifies this`seenNonces
      ensures seenNonces == Swept(old(seenNonces), now)
    {
      ghost var before := seenNonces;
      var todo := seenNonces.Keys;
      while todo != {}
        invariant todo <= before.Keys
        invariant forall n :: n in seenNonces <==> n in before && (n in todo || before[n] > now)
        invariant forall n :: n in seenNonces ==> seenNonces[n] == before[n]
        decreases todo
      {
        var seen :| seen in todo;
        todo := todo - {seen};
        if seenNonces[seen] <= now { seenNonces := seenNonces - {seen}; }
      }
    }

    /** consumeNonce: sweeps, looks up, inserts. */
    method ConsumeNonce(nonce: string, now: Time) returns (accepted: bool)
      requires Valid()
      modifies this
      ensures Valid() && calls == old(calls) + [Call(nonce, now)]
      ensures accepted == Accepted(calls, maxAge, |calls| - 1)
    {
      Sweep(now);
      calls := calls + [Call(nonce, now)];
      SeenAfter(old(calls), calls[|calls| - 1], maxAge);
      if nonce in seenNonces { return false; }
      seenNonces := seenNonces[nonce := now + maxAge];
      return true;
    }

    /** Verify: the parts and the signature are one boolean; then the times, then the nonce. */
    method Verify(authentic: bool, issuedAt: Time, nonce: string, checked: Time, now: Time) returns (accepted: bool)
      requires Valid()
      modifies this
      ensures Valid()
      ensures
        var passes, extended := authentic && InTime(issuedAt, checked, maxAge), old(calls) + [Call(nonce, now)];
        && calls == (if passes then extended else old(calls))
        && (accepted <==> passes && Accepted(extended, maxAge, |old(calls)|))
      ensures accepted ==> authentic && issuedAt - 30_000_000_000 <= checked <= issuedAt + maxAge
    {
      if !authentic || issuedAt > checked + SKEW || checked - issuedAt > maxAge { return false; }
      accepted := ConsumeNonce(nonce, now);
    }
  }
}
