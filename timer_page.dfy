/**
 * The timer page component of timer/src/app/page.tsx as an object whose
 * fields are its state variables, the interval handle and the browser
 * store.  Every handler updates the fields in place; its contract ties the
 * new state to the transition of `Machine` applied to the old one, where the
 * properties of the run are proved.
 */
module TimerPage {
  import opened Wrappers
  import opened Quotes
  import opened Storage
  import Machine

  class Session {
    var name: string
    var input: string
    var started: bool
    var done: bool
    var seconds: int
    var duration: int
    var completedCount: nat
    var quote: Option<Quote>
    var quoteLoading: bool
    var ticking: bool                 // the interval handle is set and not cleared
    ghost var pendingFetches: nat     // quote requests not yet settled
    var store: map<string, string>

    ghost function Current(): Machine.State
      reads this
    {
      Machine.State(name, input, started, done, seconds, duration, completedCount,
                    quote, quoteLoading, ticking, pendingFetches, store)
    }

    ghost predicate Valid()
      reads this
    {
      Machine.Inv(Current())
    }

    /** Page load: initial state values, then the load and persist effects. */
    constructor Hydrate(saved: map<string, string>)
      requires CountReadable(saved)
      ensures Valid() && Current() == Machine.Hydrate(saved)
      ensures !started && !done && completedCount == StoredCount(saved)
    {
      name, input := "", "";
      started, done := false, false;
      seconds, duration := 0, 10;
      quote, quoteLoading := None, false;
      ticking := false;
      pendingFetches := 0;
      var savedName := StoredName(saved);
      if savedName != "" {
        input := savedName;
        name := savedName;
      }
      // a missing or empty count entry leaves the count at 0
      completedCount := StoredCount(saved);
      store := saved;
      new;
      // the count-persist effect
      store := store[CountKey := NatToString(completedCount)];
    }

    method EditInput(text: string)
      requires Valid() && !started
      modifies this
      ensures Valid() && Current() == Machine.EditInput(old(Current()), text)
    {
      input := text;
    }

    method SelectDuration(d: int)
      requires Valid() && !started && Machine.DurationChoice(d)
      modifies this
      ensures Valid() && Current() == Machine.SelectDuration(old(Current()), d)
    {
      duration := d;
    }

    /** The form's submit handler, followed by the start effect and the name-persist effect. */
    method Submit()
      requires Valid() && !started && input != ""
      modifies this
      ensures Valid() && Current() == Machine.Submit(old(Current()))
      ensures started && !done && ticking && seconds == 0 && name == input
    {
      name := input;
      started := true;
      done := false;
      seconds := 0;
      ticking := true;
      store := store[NameKey := name];
    }

    /** The interval callback, followed by the effects of entering Done. */
    method Tick()
      requires Valid() && ticking
      modifies this
      ensures Valid() && Current() == Machine.Tick(old(Current()))
      ensures done <==> old(seconds) >= duration - 1
      ensures completedCount == old(completedCount) + (if done then 1 else 0)
    {
      var prev := seconds;
      if prev >= duration - 1 {
        ticking := false;
        done := true;
        completedCount := completedCount + 1;
        seconds := duration;
        quote := None;
        quoteLoading := true;
        pendingFetches := pendingFetches + 1;
        store := store[CountKey := NatToString(completedCount)];
      } else {
        seconds := prev + 1;
      }
    }

    /** The `then` / `catch` / `finally` handlers of a quote request. */
    method QuoteSettled(outcome: Settlement)
      requires Valid() && pendingFetches > 0
      modifies this
      ensures Valid() && Current() == Machine.Settle(old(Current()), outcome)
      ensures !quoteLoading && (quote.Some? <==> outcome.Resolved? && IsQuotePayload(outcome.body))
    {
      match outcome {
        case Resolved(body) =>
          if IsQuotePayload(body) {
            quote := AcceptPayload(body);
          } else {
            quote := None;
          }
        case Rejected =>
          quote := None;
      }
      quoteLoading := false;
      pendingFetches := pendingFetches - 1;
    }

    method Reset()
      requires Valid()
      modifies this
      ensures Valid() && Current() == Machine.Reset(old(Current()))
      ensures !started && !ticking && name == "" && completedCount == 0 && NameKey !in store
    {
      ghost var target := Machine.Reset(Current());
      var before := completedCount;
      name := "";
      input := "";
      started := false;
      done := false;
      seconds := 0;
      ticking := false;
      completedCount := 0;
      store := store - {NameKey, CountKey};
      if before != 0 {
        store := store[CountKey := NatToString(completedCount)];
      }
      assert Current() == target;
    }

    method TryAgain()
      requires Valid()
      modifies this
      ensures Valid() && Current() == Machine.TryAgain(old(Current()))
      ensures !started && !done && seconds == 0 && quote == None && !quoteLoading
    {
      started := false;
      done := false;
      seconds := 0;
      quote := None;
      quoteLoading := false;
      ticking := false;
    }

    /** The remaining seconds shown in the running view. */
    method SecondsLeft() returns (left: int)
      requires Valid() && started && !done
      ensures 1 <= left <= duration && left == duration - seconds
    {
      left := duration - seconds;
    }
  }
}
