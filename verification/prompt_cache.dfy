/** `fetchPrompt`: the persona template is fetched from the prompt service and kept in
    two module-level variables, `lastPrompt` and `lastPromptFetchTime`, for
    `promptFetchDuration` milliseconds.

    The clock and the network are inputs: each call receives the current time and the
    outcome that the fetch would have, which is consulted only when the call fetches. */
module PromptCache {

  /** The configured time to live, in milliseconds. */
  const SourceTtl: int := 1

  /** What the prompt service did: answered with a prompt at a given time, or failed. */
  datatype FetchOutcome = Delivered(prompt: string, at: int) | Failed

  /** One call of `fetchPrompt`: the current time and the outcome of its fetch. */
  datatype FetchEvent = FetchEvent(now: int, outcome: FetchOutcome)

  /** The two module-level variables. */
  datatype CacheState = CacheState(prompt: string, fetchedAt: int)

  const Empty: CacheState := CacheState("", 0)

  /** A call fetches when nothing is cached, no fetch time is recorded, or the entry is
      older than the time to live. */
  predicate Stale(s: CacheState, now: int, ttl: int) {
    s.prompt == "" || s.fetchedAt == 0 || now - s.fetchedAt > ttl
  }

  /** One call: the state afterwards and the prompt it returns. A successful fetch
      stores and returns the new prompt; a hit or a failed fetch returns what is cached. */
  function Step(s: CacheState, e: FetchEvent, ttl: int): (r: (CacheState, string))
    ensures r.1 == r.0.prompt
    ensures !Stale(s, e.now, ttl) ==> r.0 == s
    ensures Stale(s, e.now, ttl) && e.outcome.Delivered? ==>
      r == (CacheState(e.outcome.prompt, e.outcome.at), e.outcome.prompt)
  {
    if !Stale(s, e.now, ttl) then (s, s.prompt)
    else match e.outcome
      case Delivered(p, at) => (CacheState(p, at), p)
      case Failed => (s, s.prompt)
  }

  /** A sequence of calls: the final state and the prompts returned, in order. */
  function Replay(s: CacheState, events: seq<FetchEvent>, ttl: int): (r: (CacheState, seq<string>))
    ensures |r.1| == |events|
    decreases |events|
  {
    if events == [] then (s, [])
    else
      var prev := Replay(s, events[..|events| - 1], ttl);
      var next := Step(prev.0, events[|events| - 1], ttl);
      (next.0, prev.1 + [next.1])
  }

  /** A call changes the state only by a successful fetch of a stale entry, and then
      returns the fetched prompt. */
  lemma StepChangesStateOnlyOnFetch(s: CacheState, e: FetchEvent, ttl: int)
    ensures Step(s, e, ttl).0 != s ==>
      Stale(s, e.now, ttl) && e.outcome.Delivered? && Step(s, e, ttl).1 == e.outcome.prompt
    ensures Step(s, e, ttl).0 == s ==> Step(s, e, ttl).1 == s.prompt
  {
  }

  /** A fresh entry is returned whatever the service would have answered. */
  lemma HitIgnoresService(s: CacheState, now: int, o1: FetchOutcome, o2: FetchOutcome, ttl: int)
    requires !Stale(s, now, ttl)
    ensures Step(s, FetchEvent(now, o1), ttl) == Step(s, FetchEvent(now, o2), ttl) == (s, s.prompt)
  {
  }

  /** An empty cached prompt never counts as fresh, so a failed fetch can return `""`
      again and again. */
  lemma EmptyPromptIsNeverFresh(s: CacheState, now: int, ttl: int)
    requires s.prompt == ""
    ensures Stale(s, now, ttl)
    ensures Step(s, FetchEvent(now, Failed), ttl) == (s, "")
  {
  }

  /** Every call made within the time to live of a stored non-empty prompt returns
      that prompt and leaves the state alone. */
  lemma {:induction false} ReplayWithinTtl(s: CacheState, events: seq<FetchEvent>, ttl: int)
    requires s.prompt != "" && s.fetchedAt != 0
    requires forall k :: 0 <= k < |events| ==> events[k].now - s.fetchedAt <= ttl
    ensures Replay(s, events, ttl).0 == s
    ensures forall k :: 0 <= k < |events| ==> Replay(s, events, ttl).1[k] == s.prompt
    decreases |events|
  {
    if events != [] {
      ReplayWithinTtl(s, events[..|events| - 1], ttl);
    }
  }

  /** The prompts returned by a prefix of the calls are a prefix of those returned by all. */
  lemma {:induction false} ReplayPrefix(s: CacheState, events: seq<FetchEvent>, k: nat, ttl: int)
    requires k <= |events|
    ensures Replay(s, events[..k], ttl).1 == Replay(s, events, ttl).1[..k]
    decreases |events|
  {
    if k < |events| {
      assert events[..k] == events[..|events| - 1][..k];
      ReplayPrefix(s, events[..|events| - 1], k, ttl);
    } else {
      assert events[..k] == events;
    }
  }

  /** With the configured time to live of 1 ms, a stored prompt is reused only in the
      millisecond of its fetch and the next one; two milliseconds later it is fetched again. */
  lemma SourceTtlReuse(p: string, at: int, now: int)
    requires p != "" && at != 0
    ensures !Stale(CacheState(p, at), now, SourceTtl) <==> now <= at + 1
    ensures Step(CacheState(p, at), FetchEvent(at + 1, Failed), SourceTtl) == (CacheState(p, at), p)
  {
  }

  /** The module-level cache. */
  class Cache {
    var lastPrompt: string
    var lastPromptFetchTime: int
    const ttl: int

    function State(): CacheState
      reads this
    {
      CacheState(lastPrompt, lastPromptFetchTime)
    }

    /** The module is loaded with nothing cached. */
    constructor (ttl: int)
      ensures State() == Empty && this.ttl == ttl
    {
      lastPrompt := "";
      lastPromptFetchTime := 0;
      this.ttl := ttl;
    }

    /** `fetchPrompt()`. */
    method Fetch(e: FetchEvent) returns (prompt: string)
      modifies this
      ensures (State(), prompt) == Step(old(State()), e, ttl)
    {
      if lastPrompt == "" || lastPromptFetchTime == 0 || e.now - lastPromptFetchTime > ttl {
        match e.outcome {
          case Delivered(p, at) =>
            lastPrompt := p;
            lastPromptFetchTime := at;
            return p;
          case Failed =>
        }
      }
      prompt := lastPrompt;
    }
  }
}
