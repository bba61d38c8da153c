/** The loop in `queryPineconeVectorStoreAndQueryLLM` that asks `generatePrompt` for the
    identity prompt until the prompt has few enough words or the chat history is down to
    one message, meaning to drop the two oldest messages before each retry.

    Each round calls `fetchPrompt` again, so every round consumes one fetch event. The
    loop is run against a finite list of events: when the list runs out before the loop
    ends, the outcome says so. */
module ContextBudget {
  import opened Wrappers
  import opened Text
  import opened PromptCache
  import opened PromptAssembly

  /** `maxContextTokens = 16385 * 0.2`. */
  const MaxContextTokens: real := 16385.0 * 0.2

  /** `prompt.split(' ').length`: one more than the number of spaces. */
  function WordCount(p: string): (r: nat)
    ensures r == CountChar(' ', p) + 1
  {
    SplitLength(p, ' ');
    |Split(p, ' ')|
  }

  /** The prompt has more words than three quarters of the budget. */
  predicate TooLong(p: string) {
    WordCount(p) as real > MaxContextTokens * 0.75
  }

  /** The `while` condition of the do-while loop. */
  predicate KeepGoing(p: string, history: seq<string>) {
    TooLong(p) && |history| > 1
  }

  /** A prompt is too long exactly when it holds at least 2457 spaces, that is, when it
      splits into at least 2458 pieces. */
  lemma TooLongThreshold(p: string)
    ensures TooLong(p) <==> CountChar(' ', p) >= 2457
  {
  }

  /** The chat history array, which the loop is meant to shorten in place. */
  class ChatHistory {
    var items: seq<string>

    constructor (items: seq<string>)
      ensures this.items == items
    {
      this.items := items;
    }

    /** `Array.prototype.unshift(...front)`: inserts `front` before the first message and
        returns the new length. */
    method Unshift(front: seq<string>) returns (length: nat)
      modifies this
      ensures items == front + old(items)
      ensures length == |items|
    {
      items := front + items;
      length := |items|;
    }

    /** `Array.prototype.shift()`: removes and returns the first message, if any. */
    method Shift() returns (first: Option<string>)
      modifies this
      ensures old(items) == [] ==> first == None && items == []
      ensures old(items) != [] ==> first == Some(old(items)[0]) && items == old(items)[1..]
    {
      if items == [] {
        first := None;
      } else {
        first := Some(items[0]);
        items := items[1..];
      }
    }
  }

  /** How the history is cut before a retry: as written, `unshift()` twice, which inserts
      nothing; as intended, `shift()` twice, which drops the two oldest messages. */
  datatype Trimming = UnshiftTwice | ShiftTwice

  function ShiftOnce(h: seq<string>): seq<string> {
    if h == [] then [] else h[1..]
  }

  function Trimmed(h: seq<string>, t: Trimming): (r: seq<string>)
    ensures t == UnshiftTwice ==> r == h
    ensures t == ShiftTwice ==> r == (if |h| >= 2 then h[2..] else [])
  {
    match t
    case UnshiftTwice => [] + ([] + h)
    case ShiftTwice => ShiftOnce(ShiftOnce(h))
  }

  /** How the loop ends: with a prompt, the history it was built from and the cache; with
      a placeholder loop of `generatePrompt` that does not end within its round bound; or
      with the fetch events used up while the loop still wants another round. */
  datatype LoopOutcome =
    | Finished(prompt: string, history: seq<string>, cache: CacheState)
    | Hangs
    | OutOfEvents

  /** What one call of `generatePrompt` makes of the fetched prompt and the current
      history: the prompt, or `None` when one of its placeholder loops does not end within
      its round bound. */
  type Generator = (string, seq<string>) -> Option<string>

  /** `generatePrompt` for a fixed question and user name. */
  function PromptGenerator(question: string, userName: string, fuel: nat): Generator {
    (fetched, h) => Generated(fetched, h, question, userName, fuel)
  }

  /** The loop from a round onwards. `identity` is the prompt of the previous round (`""`
      before the first); a non-empty one makes the round trim the history first. */
  function Run(t: Trimming, gen: Generator, s: CacheState, h: seq<string>, events: seq<FetchEvent>,
               ttl: int, identity: string): LoopOutcome
    decreases |events|
  {
    if events == [] then OutOfEvents
    else
      var h1 := if identity != "" then Trimmed(h, t) else h;
      var step := Step(s, events[0], ttl);
      match gen(step.1, h1)
      case None => Hangs
      case Some(p) =>
        if KeepGoing(p, h1) then Run(t, gen, step.0, h1, events[1..], ttl, p)
        else Finished(p, h1, step.0)
  }

  /** One round of the loop. */
  lemma RunRound(t: Trimming, gen: Generator, s: CacheState, h: seq<string>, events: seq<FetchEvent>,
                 ttl: int, identity: string)
    requires events != []
    ensures var h1 := if identity != "" then Trimmed(h, t) else h;
      var step := Step(s, events[0], ttl);
      && (gen(step.1, h1).None? ==> Run(t, gen, s, h, events, ttl, identity) == Hangs)
      && (gen(step.1, h1).Some? && KeepGoing(gen(step.1, h1).value, h1) ==>
            Run(t, gen, s, h, events, ttl, identity)
            == Run(t, gen, step.0, h1, events[1..], ttl, gen(step.1, h1).value))
      && (gen(step.1, h1).Some? && !KeepGoing(gen(step.1, h1).value, h1) ==>
            Run(t, gen, s, h, events, ttl, identity) == Finished(gen(step.1, h1).value, h1, step.0))
  {
  }

  /** A finished loop has left its condition: the prompt fits or at most one message is left. */
  lemma {:induction false} FinishedLoopFits(t: Trimming, gen: Generator, s: CacheState, h: seq<string>,
                                            events: seq<FetchEvent>, ttl: int, identity: string)
    ensures var r := Run(t, gen, s, h, events, ttl, identity);
      r.Finished? ==> !TooLong(r.prompt) || |r.history| <= 1
    decreases |events|
  {
    if events != [] {
      var h1 := if identity != "" then Trimmed(h, t) else h;
      var step := Step(s, events[0], ttl);
      match gen(step.1, h1)
      case None =>
      case Some(p) =>
        FinishedLoopFits(t, gen, step.0, h1, events[1..], ttl, p);
    }
  }

  /** As written, the loop never changes the history. */
  lemma {:induction false} AsWrittenKeepsHistory(gen: Generator, s: CacheState, h: seq<string>,
                                                 events: seq<FetchEvent>, ttl: int, identity: string)
    ensures var r := Run(UnshiftTwice, gen, s, h, events, ttl, identity);
      r.Finished? ==> r.history == h
    decreases |events|
  {
    if events != [] {
      var h1 := if identity != "" then Trimmed(h, UnshiftTwice) else h;
      assert h1 == h;
      var step := Step(s, events[0], ttl);
      match gen(step.1, h1)
      case None =>
      case Some(p) =>
        AsWrittenKeepsHistory(gen, step.0, h, events[1..], ttl, p);
    }
  }

  /** With at most one message the loop ends after its first round, whatever the trimming. */
  lemma ShortHistoryOneRound(t: Trimming, gen: Generator, s: CacheState, h: seq<string>,
                             events: seq<FetchEvent>, ttl: int)
    requires |h| <= 1 && events != []
    ensures Run(t, gen, s, h, events, ttl, "") != OutOfEvents
  {
  }

  /** As written, a prompt that is too long for a history of two or more messages is built
      again from the same template and the same history at every round, as long as the
      prompt service keeps answering with that template (or is not asked, or fails), so the
      loop runs until the events are used up, however many there are. */
  lemma {:induction false} AsWrittenNeverEnds(gen: Generator, s: CacheState, h: seq<string>,
                                              events: seq<FetchEvent>, ttl: int, identity: string, p: string)
    requires forall k :: 0 <= k < |events| && events[k].outcome.Delivered? ==>
      events[k].outcome.prompt == s.prompt
    requires gen(s.prompt, h) == Some(p)
    requires KeepGoing(p, h)
    ensures Run(UnshiftTwice, gen, s, h, events, ttl, identity) == OutOfEvents
    decreases |events|
  {
    if events != [] {
      var h1 := if identity != "" then Trimmed(h, UnshiftTwice) else h;
      assert h1 == h;
      var step := Step(s, events[0], ttl);
      assert step.1 == s.prompt == step.0.prompt;
      assert forall k :: 0 <= k < |events[1..]| ==> events[1..][k] == events[k + 1];
      AsWrittenNeverEnds(gen, step.0, h, events[1..], ttl, p, p);
    }
  }

  /** With `shift()`, once the previous prompt is non-empty every round drops two messages,
      so `max(1, n / 2)` rounds suffice for a history of `n` messages. */
  lemma {:induction false} ShiftingRoundsEnd(gen: Generator, s: CacheState, h: seq<string>,
                                             events: seq<FetchEvent>, ttl: int, identity: string)
    requires identity != ""
    requires |events| >= 1 && |events| >= |h| / 2
    ensures Run(ShiftTwice, gen, s, h, events, ttl, identity) != OutOfEvents
    decreases |events|
  {
    var h1 := Trimmed(h, ShiftTwice);
    assert |h| >= 2 ==> |h1| == |h| - 2;
    var step := Step(s, events[0], ttl);
    match gen(step.1, h1)
    case None =>
    case Some(p) =>
      if KeepGoing(p, h1) {
        SplitLength(p, ' ');
        assert p != "";
        ShiftingRoundsEnd(gen, step.0, h1, events[1..], ttl, p);
      }
  }

  /** With `shift()`, the loop started as the handler starts it ends within `n / 2 + 1`
      rounds for a history of `n` messages. */
  lemma CorrectedLoopEnds(gen: Generator, s: CacheState, h: seq<string>, events: seq<FetchEvent>, ttl: int)
    requires |events| >= |h| / 2 + 1
    ensures Run(ShiftTwice, gen, s, h, events, ttl, "") != OutOfEvents
  {
    var step := Step(s, events[0], ttl);
    match gen(step.1, h)
    case None =>
    case Some(p) =>
      if KeepGoing(p, h) {
        SplitLength(p, ' ');
        assert p != "";
        ShiftingRoundsEnd(gen, step.0, h, events[1..], ttl, p);
      }
  }

  /** The two calls that are meant to cut the history before a retry. */
  method ReduceContext(history: ChatHistory, t: Trimming)
    modifies history
    ensures history.items == Trimmed(old(history.items), t)
  {
    match t {
      case UnshiftTwice =>
        var length := history.Unshift([]);
        length := history.Unshift([]);
      case ShiftTwice =>
        var first := history.Shift();
        first := history.Shift();
    }
  }

  /** The do-while loop, with the history cut by `t` before every retry. Each round calls
      `fetchPrompt` and hands its answer and the current history to `gen`, the prompt
      builder of `generatePrompt`. */
  method AssembleIdentityPrompt(cache: Cache, history: ChatHistory, gen: Generator,
                                events: seq<FetchEvent>, t: Trimming)
    returns (outcome: LoopOutcome)
    modifies cache, history
    ensures outcome == Run(t, gen, old(cache.State()), old(history.items), events, cache.ttl, "")
    ensures outcome.Finished? ==> history.items == outcome.history && cache.State() == outcome.cache
    ensures t == UnshiftTwice ==> history.items == old(history.items)
  {
    var identity := "";
    var k := 0;
    while k < |events|
      invariant k <= |events|
      invariant Run(t, gen, cache.State(), history.items, events[k..], cache.ttl, identity)
             == Run(t, gen, old(cache.State()), old(history.items), events, cache.ttl, "")
      invariant t == UnshiftTwice ==> history.items == old(history.items)
    {
      ghost var s0, h0 := cache.State(), history.items;
      if identity != "" {
        ReduceContext(history, t);
      }
      var fetched := cache.Fetch(events[k]);
      var p := gen(fetched, history.items);
      RunRound(t, gen, s0, h0, events[k..], cache.ttl, identity);
      assert events[k..][0] == events[k] && events[k..][1..] == events[k + 1..];
      k := k + 1;
      if p.None? {
        return Hangs;
      }
      identity := p.value;
      if !KeepGoing(identity, history.items) {
        return Finished(identity, history.items, cache.State());
      }
    }
    assert events[k..] == [];
    outcome := OutOfEvents;
  }

  /** The identity prompt of `queryPineconeVectorStoreAndQueryLLM`: the loop above with
      `generatePrompt` for the caller's question and user name. */
  method IdentityPrompt(cache: Cache, history: ChatHistory, question: string, userName: string,
                        events: seq<FetchEvent>, fuel: nat, t: Trimming)
    returns (outcome: LoopOutcome)
    modifies cache, history
    ensures outcome == Run(t, PromptGenerator(question, userName, fuel), old(cache.State()),
                           old(history.items), events, cache.ttl, "")
    ensures outcome.Finished? ==> history.items == outcome.history && cache.State() == outcome.cache
    ensures t == UnshiftTwice ==> history.items == old(history.items)
  {
    outcome := AssembleIdentityPrompt(cache, history, PromptGenerator(question, userName, fuel), events, t);
  }
}
