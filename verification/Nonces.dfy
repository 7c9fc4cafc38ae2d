/**
 Replay protection in the verify gateway: a store of nonces with the time each was first seen,
 a sweep that forgets old ones, and the verifier's time window in front of it.  Times are
 milliseconds.
 */
module Nonces {
  datatype NonceEntry = NonceEntry(nonce: string, timestamp: int, predicateId: string)

  type Store = map<string, NonceEntry>

  // ---------------------------------------------------------------- the store

  function Swept(nonces: Store, cutoff: int): Store {
    map n | n in nonces && nonces[n].timestamp >= cutoff :: nonces[n]
  }

  class NonceStore {
    var nonces: Store
    var windowMs: int

    constructor (windowMs: int)
      ensures nonces == map[] && this.windowMs == windowMs
    {
      nonces := map[];
      this.windowMs := windowMs;
    }

    method SetWindowMs(windowMs: int)
      modifies this
      ensures this.windowMs == windowMs && nonces == old(nonces)
    {
      this.windowMs := windowMs;
    }

    /** True for a nonce not in the store, which is then stored with the current time. */
    method CheckAndStore(nonce: string, predicateId: string, now: int) returns (isNew: bool)
      modifies this
      ensures windowMs == old(windowMs)
      ensures isNew <==> nonce !in old(nonces)
      ensures nonces == if isNew then old(nonces)[nonce := NonceEntry(nonce, now, predicateId)] else old(nonces)
    {
      if nonce in nonces {
        return false;
      }
      nonces := nonces[nonce := NonceEntry(nonce, now, predicateId)];
      return true;
    }

    /** Removes exactly the entries older than the window and counts them. */
    method Cleanup(now: int) returns (removed: nat)
      modifies this
      ensures windowMs == old(windowMs)
      ensures nonces == Swept(old(nonces), now - windowMs)
      ensures removed == |set n | n in old(nonces) && old(nonces)[n].timestamp < now - windowMs|
      ensures removed == |old(nonces)| - |nonces|
    {
      var cutoff := now - windowMs;
      var entries := nonces;
      var pending := nonces.Keys;
      removed := 0;
      while pending != {}
        invariant windowMs == old(windowMs) && pending <= entries.Keys
        invariant nonces == map n | n in entries && (n in pending || entries[n].timestamp >= cutoff) :: entries[n]
        invariant removed == |entries| - |nonces|
        decreases |pending|
      {
        var nonce :| nonce in pending;
        pending := pending - {nonce};
        if entries[nonce].timestamp < cutoff {
          assert nonces.Keys - {nonce} == (nonces - {nonce}).Keys;
          nonces := nonces - {nonce};
          removed := removed + 1;
        }
      }
      SweptSize(entries, cutoff);
    }
  }

  lemma SweptSize(nonces: Store, cutoff: int)
    ensures |set n | n in nonces && nonces[n].timestamp < cutoff| == |nonces| - |Swept(nonces, cutoff)|
  {
    var stale := set n | n in nonces && nonces[n].timestamp < cutoff;
    assert nonces.Keys == stale + Swept(nonces, cutoff).Keys && stale !! Swept(nonces, cutoff).Keys;
    assert |nonces| == |nonces.Keys| && |Swept(nonces, cutoff)| == |Swept(nonces, cutoff).Keys|;
  }

  // ---------------------------------------------------------------- the verifier in front of it

  datatype Package = Package(nonce: string, generatedAt: int)

  datatype Verdict = Fresh | OutsideWindow | Replay

  /** Times before 10^12 are read as seconds. */
  function CreatedAt(p: Package): int {
    if p.generatedAt < 1_000_000_000_000 then p.generatedAt * 1000 else p.generatedAt
  }

  function Abs(x: int): nat {
    if x < 0 then -x else x
  }

  /** Steps 3 and 4 of a verification; `checkedAt` and `storedAt` are its two clock reads. */
  function Judge(nonces: Store, windowMs: int, p: Package, checkedAt: int): Verdict {
    if Abs(checkedAt - CreatedAt(p)) > windowMs then OutsideWindow
    else if p.nonce in nonces then Replay
    else Fresh
  }

  /** The window reaches as far ahead as back, and a time in seconds is as good as in milliseconds. */
  lemma WindowIsTwoSided(nonces: Store, windowMs: int, nonce: string, seconds: int, checkedAt: int)
    requires 1_000_000_000 <= seconds < 1_000_000_000_000
    ensures var p := Package(nonce, seconds);
      && Judge(nonces, windowMs, p, checkedAt) == Judge(nonces, windowMs, Package(nonce, seconds * 1000), checkedAt)
      && (Judge(nonces, windowMs, p, checkedAt) == OutsideWindow <==>
            checkedAt > seconds * 1000 + windowMs || seconds * 1000 > checkedAt + windowMs)
      && (Judge(nonces, windowMs, p, checkedAt) == Replay <==>
            seconds * 1000 - windowMs <= checkedAt <= seconds * 1000 + windowMs && nonce in nonces)
  {
  }

  class Verifier {
    const nonceWindowMs: int
    const store: NonceStore

    constructor (nonceWindowMs: int, store: NonceStore)
      ensures this.nonceWindowMs == nonceWindowMs && this.store == store
    {
      this.nonceWindowMs := nonceWindowMs;
      this.store := store;
    }

    method CheckReplay(p: Package, predicateKey: string, checkedAt: int, storedAt: int) returns (v: Verdict)
      modifies store
      ensures v == Judge(old(store.nonces), nonceWindowMs, p, checkedAt)
      ensures var made := if p.generatedAt < 1_000_000_000_000 then 1000 * p.generatedAt else p.generatedAt;
        && (v == OutsideWindow <==> checkedAt > made + nonceWindowMs || made > checkedAt + nonceWindowMs)
        && (v == Replay <==>
              made - nonceWindowMs <= checkedAt <= made + nonceWindowMs && p.nonce in old(store.nonces))
      ensures store.windowMs == old(store.windowMs)
      ensures store.nonces ==
        if v == Fresh then old(store.nonces)[p.nonce := NonceEntry(p.nonce, storedAt, predicateKey)]
        else old(store.nonces)
    {
      var createdAt := if p.generatedAt < 1_000_000_000_000 then p.generatedAt * 1000 else p.generatedAt;
      var gap := checkedAt - createdAt;
      if (if gap < 0 then -gap else gap) > nonceWindowMs {
        return OutsideWindow;
      }
      var isNew := store.CheckAndStore(p.nonce, predicateKey, storedAt);
      v := if isNew then Fresh else Replay;
    }
  }

  // ---------------------------------------------------------------- runs

  datatype Event =
    | Verify(package: Package, predicateKey: string, checkedAt: int, storedAt: int)
    | Sweep(now: int)

  function StartOf(e: Event): int {
    if e.Verify? then e.checkedAt else e.now
  }

  function EndOf(e: Event): int {
    if e.Verify? then e.storedAt else e.now
  }

  /** The clock never runs backwards, within an event or between events. */
  ghost predicate Monotone(events: seq<Event>) {
    && (forall i :: 0 <= i < |events| ==> StartOf(events[i]) <= EndOf(events[i]))
    && (forall i, j :: 0 <= i < j < |events| ==> EndOf(events[i]) <= StartOf(events[j]))
  }

  function Apply(nonces: Store, windowMs: int, e: Event): Store {
    match e
    case Verify(p, predicateKey, checkedAt, storedAt) =>
      if Judge(nonces, windowMs, p, checkedAt) == Fresh
      then nonces[p.nonce := NonceEntry(p.nonce, storedAt, predicateKey)]
      else nonces
    case Sweep(now) => Swept(nonces, now - windowMs)
  }

  /** The store after a run that starts from an empty one. */
  function After(windowMs: int, events: seq<Event>): Store {
    if events == [] then map[]
    else Apply(After(windowMs, events[..|events| - 1]), windowMs, events[|events| - 1])
  }

  /** Event `i` of the run let its package through. */
  predicate Accepts(windowMs: int, events: seq<Event>, i: nat)
    requires i < |events|
  {
    events[i].Verify? && Judge(After(windowMs, events[..i]), windowMs, events[i].package, events[i].checkedAt) == Fresh
  }

  /** Until a nonce is older than the window, the store still has it, with the time it was stored or a later one. */
  lemma {:induction false} Remembers(windowMs: int, events: seq<Event>, i: nat)
    requires 0 <= windowMs && Monotone(events) && i < |events| && Accepts(windowMs, events, i)
    ensures var nonces, e := After(windowMs, events), events[i];
      || EndOf(events[|events| - 1]) - windowMs > e.storedAt
      || (e.package.nonce in nonces && nonces[e.package.nonce].timestamp >= e.storedAt)
    decreases |events|
  {
    var init, last := events[..|events| - 1], events[|events| - 1];
    if i < |init| {
      assert init[i] == events[i] && init[..i] == events[..i];
      assert EndOf(init[|init| - 1]) <= StartOf(last) <= EndOf(last);
      Remembers(windowMs, init, i);
    } else {
      assert events[..i] == init;
    }
  }

  /** Two acceptances of one nonce are more than the window apart, however sweeps come between. */
  lemma ReusesAreApart(windowMs: int, events: seq<Event>, i: nat, j: nat)
    requires 0 <= windowMs && Monotone(events) && i < j < |events|
    requires Accepts(windowMs, events, i) && Accepts(windowMs, events, j)
    requires events[i].package.nonce == events[j].package.nonce
    ensures events[j].checkedAt - events[i].storedAt > windowMs
  {
    var before := events[..j];
    assert before[i] == events[i] && before[..i] == events[..i];
    Remembers(windowMs, before, i);
    assert EndOf(before[|before| - 1]) <= events[j].checkedAt;
  }

  /** So a package made no later than its nonce was stored can never pass again. */
  lemma NoReplay(windowMs: int, events: seq<Event>, i: nat, j: nat)
    requires 0 <= windowMs && Monotone(events) && i < j < |events| && events[j].Verify?
    requires Accepts(windowMs, events, i) && events[i].package.nonce == events[j].package.nonce
    requires CreatedAt(events[j].package) <= events[i].storedAt
    ensures !Accepts(windowMs, events, j)
  {
    if Accepts(windowMs, events, j) {
      ReusesAreApart(windowMs, events, i, j);
    }
  }

  /** Some later event of a continued run lets the last package through once more. */
  ghost predicate PassesAgain(windowMs: int, events: seq<Event>, more: seq<Event>, j: nat)
    requires events != [] && events[|events| - 1].Verify?
  {
    && Monotone(events + more) && |events| <= j < |events + more|
    && (events + more)[j].Verify? && (events + more)[j].package == events[|events| - 1].package
    && Accepts(windowMs, events + more, j)
  }

  /** A sweep just after the window, and the package again. */
  function SweepAndRepeat(windowMs: int, e: Event): seq<Event>
    requires e.Verify?
  {
    var later := e.storedAt + windowMs + 1;
    [Sweep(later), Verify(e.package, e.predicateKey, later, later)]
  }

  /** A package stamped after its nonce was stored passes again once a sweep has forgotten it. */
  lemma ForwardDatedReplay(windowMs: int, events: seq<Event>)
    requires events != [] && Monotone(events) && Accepts(windowMs, events, |events| - 1)
    requires CreatedAt(events[|events| - 1].package) > events[|events| - 1].storedAt
    ensures PassesAgain(windowMs, events, SweepAndRepeat(windowMs, events[|events| - 1]), |events| + 1)
  {
    var (n, e) := (|events|, events[|events| - 1]);
    var all := events + SweepAndRepeat(windowMs, e);
    assert all[..n] == events && all[..n + 1][..n] == events;
    assert After(windowMs, events)[e.package.nonce].timestamp == e.storedAt;
    assert After(windowMs, all[..n + 1]) == Swept(After(windowMs, events), e.storedAt + 1);
    assert e.package.nonce !in After(windowMs, all[..n + 1]);
  }

  /**
   After any run that ends by letting a package through, the same package can pass again exactly
   if it is stamped after its nonce was stored.
   */
  lemma ReplayNeedsALead(windowMs: int, events: seq<Event>)
    requires events != [] && Monotone(events) && Accepts(windowMs, events, |events| - 1)
    ensures (exists more: seq<Event>, j: nat :: PassesAgain(windowMs, events, more, j))
      <==> CreatedAt(events[|events| - 1].package) > events[|events| - 1].storedAt
  {
    var n := |events| - 1;
    if CreatedAt(events[n].package) > events[n].storedAt {
      ForwardDatedReplay(windowMs, events);
    }
    if more: seq<Event>, j: nat :| PassesAgain(windowMs, events, more, j) {
      var all := events + more;
      assert all[..n] == events[..n] && all[n] == events[n];
      ReusesAreApart(windowMs, all, n, j);
    }
  }
}
