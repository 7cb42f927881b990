/** What a saved session keeps of the timeline, and what hydrating it restores (packages/client/src/persistence.ts). */
module Persistence {
  import opened Prelude
  import opened Messages

  /** Array.slice(-n): for n = 0 it is slice(0), the whole array, and a negative n drops from the front. */
  function SliceMinus<T>(s: seq<T>, n: int): seq<T> {
    if n > 0 then s[if |s| <= n then 0 else |s| - n..]
    else s[if |s| <= -n then |s| else -n..]
  }

  /** The messages a save writes. */
  function Saved(messages: seq<Entry>, maxMessages: int): seq<Entry> {
    SliceMinus(Persisted(messages), maxMessages)
  }

  /** The last n entries, none when n is not positive. */
  function LastN<T>(s: seq<T>, n: int): seq<T> {
    if n <= 0 then [] else if |s| <= n then s else s[|s| - n..]
  }

  /** The limit is respected exactly when it is at least one or the slice runs off the end anyway. */
  lemma SavedIsLastN(messages: seq<Entry>, maxMessages: int)
    ensures Saved(messages, maxMessages) == LastN(Persisted(messages), maxMessages) <==>
      maxMessages >= 1 || |Persisted(messages)| <= -maxMessages
  {
    var all := Persisted(messages);
    if maxMessages <= 0 && |all| > -maxMessages {
      assert |Saved(messages, maxMessages)| > 0;
    }
  }

  /** A limit of zero saves everything. */
  lemma ZeroSavesAll(messages: seq<Entry>)
    ensures Saved(messages, 0) == Persisted(messages)
  {
  }

  lemma PersistedOfSaved(messages: seq<Entry>, maxMessages: int)
    ensures Persisted(Saved(messages, maxMessages)) == Saved(messages, maxMessages)
  {
    FilterAll(Saved(messages, maxMessages), (e: Entry) => !e.Streaming?);
  }

  /**
   Saving any reachable timeline and hydrating any other aggregator with the result restores exactly the last
   entries that are not streaming, in order, and numbers later pushes after them.
   */
  lemma SaveHydrate(s: State, maxMessages: int, target: State)
    requires Numbered(s) && maxMessages >= 1
    ensures var r := Hydrated(target, Saved(s.messages, maxMessages));
      && r.messages == LastN(Persisted(s.messages), maxMessages)
      && Numbered(r) && Mirrors(r) && r.streaming == map[] && r.revision > target.revision
  {
    var saved := Saved(s.messages, maxMessages);
    SavedIsLastN(s.messages, maxMessages);
    PersistedOfSaved(s.messages, maxMessages);
    FilterOrdered(s.messages, (e: Entry) => !e.Streaming?);
    HydratedNumbered(target, saved);
    HydratedMirrors(target, saved);
    if saved != [] { MaxArrivalIsMax(saved); }
  }

  /** The numbering survives everything that happens after the restore, as long as later restores are saved ones too. */
  lemma {:induction false} RestoredRun(target: State, saved: seq<Entry>, events: seq<Event>, parse: Parser)
    requires Ordered(Persisted(saved)) && OrderedRestores(events)
    ensures Numbered(RunFrom(Hydrated(target, saved), events, parse))
  {
    if events == [] {
      HydratedNumbered(target, saved);
    } else {
      var before := events[..|events| - 1];
      RestoredRun(target, saved, before, parse);
      StepNumbered(RunFrom(Hydrated(target, saved), before, parse), events[|events| - 1], parse);
    }
  }
}
