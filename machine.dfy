/**
 * The timer session of timer/src/app/page.tsx as a state machine over
 * values.  `State` holds the component's state variables, the liveness of
 * the interval handle and the browser store; each transition function is
 * one handler or the interval callback, together with the effects that
 * React runs after the resulting render (persisting the name and count,
 * clearing the interval, starting the quote request).
 */
module Machine {
  import opened Wrappers
  import opened Quotes
  import opened Storage

  /** The three views the page renders (page.tsx:125, 149, 161). */
  datatype Phase = Idle | Running | Done

  datatype State = State(
    name: string,
    input: string,
    started: bool,
    done: bool,
    seconds: int,
    duration: int,
    completedCount: nat,
    quote: Option<Quote>,
    quoteLoading: bool,
    ticking: bool,              // an interval is scheduled and not cleared
    pendingFetches: nat,        // quote requests issued and not yet settled
    store: map<string, string>) // the browser's local storage

  /** The options of the duration selector. */
  predicate DurationChoice(d: int)
  {
    d == 10 || d == 20 || d == 30
  }

  function PhaseOf(s: State): Phase
  {
    if s.done then Done else if s.started then Running else Idle
  }

  /** The store holds what the persist effects last wrote. */
  predicate StoreAgrees(s: State)
  {
    && StoredName(s.store) == s.name
    && (CountKey in s.store ==> s.store[CountKey] == NatToString(s.completedCount))
    && (s.completedCount != 0 ==> CountKey in s.store)
  }

  /** What every reachable state of the page satisfies. */
  predicate Inv(s: State)
  {
    && DurationChoice(s.duration)
    && 0 <= s.seconds <= s.duration
    && (s.done ==> s.started)
    && (s.ticking <==> s.started && !s.done)
    && (!s.started ==> s.seconds == 0)
    && (s.started && !s.done ==> s.seconds < s.duration)
    && (s.done ==> s.seconds == s.duration)
    && (s.started ==> s.name != "")
    && (s.quoteLoading ==> s.pendingFetches > 0)
    && StoreAgrees(s)
  }

  lemma KeysDiffer()
    ensures NameKey != CountKey
  {
  }

  /**
   * Page load: the initial state values, then the load effect (a non-empty
   * stored name fills `name` and `input`, a non-empty stored count becomes
   * `completedCount`).  The count-persist effect runs on mount with 0 and
   * again once the loaded count differs, so the stored count ends up as the
   * canonical text of the loaded count; the name-persist effect writes back
   * the value it read.
   */
  function Hydrate(saved: map<string, string>): (r: State)
    requires CountReadable(saved)
    ensures Inv(r) && PhaseOf(r) == Idle && !r.ticking
    ensures r.seconds == 0 && r.duration == 10
    ensures r.name == StoredName(saved) && r.input == r.name
    ensures r.completedCount == StoredCount(saved)
    ensures r.store == saved[CountKey := NatToString(r.completedCount)]
    ensures r.quote == None && !r.quoteLoading && r.pendingFetches == 0
  {
    // a missing or empty stored entry leaves the initial empty name / zero count
    var name := StoredName(saved);
    var count := StoredCount(saved);
    KeysDiffer();
    State(name, name, false, false, 0, 10, count, None, false, false, 0,
          saved[CountKey := NatToString(count)])
  }

  /** The input field's change handler; the form is shown only while idle. */
  function EditInput(s: State, text: string): (r: State)
    requires Inv(s) && PhaseOf(s) == Idle
    ensures Inv(r) && PhaseOf(r) == Idle
    ensures r.input == text && r.name == s.name && r.completedCount == s.completedCount
    ensures r.duration == s.duration && r.store == s.store
    ensures r.quote == s.quote && r.quoteLoading == s.quoteLoading && r.pendingFetches == s.pendingFetches
  {
    s.(input := text)
  }

  /** The duration selector's change handler; the form is shown only while idle. */
  function SelectDuration(s: State, d: int): (r: State)
    requires Inv(s) && PhaseOf(s) == Idle && DurationChoice(d)
    ensures Inv(r) && PhaseOf(r) == Idle
    ensures r.duration == d && r.name == s.name && r.input == s.input
    ensures r.completedCount == s.completedCount && r.store == s.store
    ensures r.quote == s.quote && r.quoteLoading == s.quoteLoading && r.pendingFetches == s.pendingFetches
  {
    s.(duration := d)
  }

  /**
   * Form submission: take the input as the name and start.  The start effect
   * then zeroes `seconds` and schedules the interval; the name-persist effect
   * stores the (non-empty) name.  The form's `required` attribute is what
   * keeps the input non-empty.
   */
  function Submit(s: State): (r: State)
    requires Inv(s) && PhaseOf(s) == Idle && s.input != ""
    ensures Inv(r) && PhaseOf(r) == Running && r.ticking
    ensures r.seconds == 0 && r.name == s.input && StoredName(r.store) == s.input
    ensures r.input == s.input && r.duration == s.duration && r.completedCount == s.completedCount
    ensures r.store == s.store[NameKey := s.input]
    ensures r.quote == s.quote && r.quoteLoading == s.quoteLoading && r.pendingFetches == s.pendingFetches
  {
    KeysDiffer();
    s.(name := s.input, started := true, done := false, seconds := 0, ticking := true,
       store := s.store[NameKey := s.input])
  }

  /**
   * One firing of the interval callback.  Below the last second it counts
   * one up; on the last second it clears the interval, clamps `seconds` to
   * `duration`, enters Done and counts one completion.  The effects of that
   * render empty the quote slot, start a quote request and persist the count.
   */
  function Tick(s: State): (r: State)
    requires Inv(s) && s.ticking
    ensures Inv(r)
    ensures r.name == s.name && r.input == s.input && r.duration == s.duration
    ensures s.seconds < s.duration - 1 ==>
              && r.seconds == s.seconds + 1 && PhaseOf(r) == Running && r.ticking
              && r.completedCount == s.completedCount && r.store == s.store
              && r.quote == s.quote && r.quoteLoading == s.quoteLoading
              && r.pendingFetches == s.pendingFetches
    ensures s.seconds >= s.duration - 1 ==>
              && r.seconds == s.duration && PhaseOf(r) == Done && !r.ticking
              && r.completedCount == s.completedCount + 1
              && r.quote == None && r.quoteLoading && r.pendingFetches == s.pendingFetches + 1
              && r.store == s.store[CountKey := NatToString(r.completedCount)]
  {
    if s.seconds >= s.duration - 1 then
      var count := s.completedCount + 1;
      KeysDiffer();
      s.(seconds := s.duration, done := true, ticking := false, completedCount := count,
         quote := None, quoteLoading := true, pendingFetches := s.pendingFetches + 1,
         store := s.store[CountKey := NatToString(count)])
    else
      s.(seconds := s.seconds + 1)
  }

  /**
   * A quote request settles: the slot takes the accepted payload or stays
   * empty, and the loading flag is cleared in every case.  Nothing ties the
   * request to the run that issued it, so this applies in whatever phase the
   * page has reached by then.
   */
  function Settle(s: State, outcome: Settlement): (r: State)
    requires Inv(s) && s.pendingFetches > 0
    ensures Inv(r) && !r.quoteLoading && r.pendingFetches == s.pendingFetches - 1
    ensures r.quote.Some? <==> outcome.Resolved? && IsQuotePayload(outcome.body)
    ensures r.quote == SettledQuote(outcome)
    ensures PhaseOf(r) == PhaseOf(s) && r.ticking == s.ticking && r.seconds == s.seconds
    ensures r.name == s.name && r.input == s.input && r.duration == s.duration
    ensures r.completedCount == s.completedCount && r.store == s.store
  {
    s.(quote := SettledQuote(outcome), quoteLoading := false, pendingFetches := s.pendingFetches - 1)
  }

  /**
   * The service's usual answer fills the slot with its text and author; a
   * failed request or an empty array leaves it empty.
   */
  lemma SettleExample(s: State)
    requires Inv(s) && s.pendingFetches > 0
    ensures var body := JArray([JObject(map["q" := JString("A"), "a" := JString("B")])]);
              Settle(s, Resolved(body)).quote == Some(Quote(JString("A"), JString("B")))
    ensures Settle(s, Rejected).quote == None && Settle(s, Resolved(JArray([]))).quote == None
    ensures !Settle(s, Rejected).quoteLoading
  {
  }

  /**
   * "Try again": back to the form with the counter and the quote slot
   * cleared, the interval cleared, and the name, input, duration and count kept.
   */
  function TryAgain(s: State): (r: State)
    requires Inv(s)
    ensures Inv(r) && PhaseOf(r) == Idle && !r.ticking
    ensures r.seconds == 0 && r.quote == None && !r.quoteLoading
    ensures r.name == s.name && r.input == s.input && r.duration == s.duration
    ensures r.completedCount == s.completedCount && r.store == s.store
    ensures r.pendingFetches == s.pendingFetches
  {
    s.(started := false, done := false, seconds := 0, quote := None, quoteLoading := false,
       ticking := false)
  }

  /**
   * "Reset": back to the form with name, input, counter and count cleared and
   * both entries removed from the store.  If the count was not already 0,
   * the count-persist effect then writes "0" back under its key.
   */
  function Reset(s: State): (r: State)
    requires Inv(s)
    ensures Inv(r) && PhaseOf(r) == Idle && !r.ticking
    ensures r.name == "" && r.input == "" && r.seconds == 0 && r.completedCount == 0
    ensures NameKey !in r.store
    ensures CountKey in r.store <==> s.completedCount != 0
    ensures CountKey in r.store ==> r.store[CountKey] == "0"
    ensures forall k :: k != NameKey && k != CountKey ==>
              (k in r.store <==> k in s.store) && (k in r.store ==> r.store[k] == s.store[k])
    ensures r.duration == s.duration && r.quote == s.quote && r.quoteLoading == s.quoteLoading
    ensures r.pendingFetches == s.pendingFetches
  {
    var cleared := s.store - {NameKey, CountKey};
    s.(name := "", input := "", started := false, done := false, seconds := 0, ticking := false,
       completedCount := 0,
       store := if s.completedCount != 0 then cleared[CountKey := NatToString(0)] else cleared)
  }

  /** `n` firings of the interval; once it is cleared nothing fires. */
  function Ticks(s: State, n: nat): (r: State)
    requires Inv(s)
    ensures Inv(r)
    ensures !s.ticking ==> r == s
    ensures r.completedCount >= s.completedCount
    decreases n
  {
    if n == 0 || !s.ticking then s else Ticks(Tick(s), n - 1)
  }

  lemma {:induction false} TicksCompose(s: State, m: nat, n: nat)
    requires Inv(s)
    ensures Ticks(s, m + n) == Ticks(Ticks(s, m), n)
    decreases m
  {
    if m > 0 && s.ticking {
      TicksCompose(Tick(s), m - 1, n);
    }
  }

  /**
   * While running, each tick adds one second; the run ends exactly when the
   * counter reaches the duration, and only then is a completion counted.
   */
  lemma {:induction false} TicksWhileRunning(s: State, n: nat)
    requires Inv(s) && s.ticking && n <= s.duration - s.seconds
    ensures var r := Ticks(s, n);
              && r.seconds == s.seconds + n
              && (PhaseOf(r) == Done <==> n == s.duration - s.seconds)
              && (r.ticking <==> n < s.duration - s.seconds)
              && r.completedCount == s.completedCount + (if n == s.duration - s.seconds then 1 else 0)
              && r.name == s.name && r.input == s.input && r.duration == s.duration
    decreases n
  {
    if n > 0 {
      var t := Tick(s);
      if s.seconds < s.duration - 1 {
        TicksWhileRunning(t, n - 1);
      } else {
        assert Ticks(t, n - 1) == t;
      }
    }
  }

  /**
   * A run started from the form reaches Done after exactly `duration` ticks,
   * with the counter clamped at the duration, and counts exactly one
   * completion however many further ticks are attempted.
   */
  lemma RunCompletesOnce(s: State, n: nat)
    requires Inv(s) && PhaseOf(s) == Idle && s.input != ""
    ensures var r := Ticks(Submit(s), n);
              && (PhaseOf(r) == Done <==> n >= s.duration)
              && r.seconds == (if n >= s.duration then s.duration else n)
              && r.completedCount == s.completedCount + (if n >= s.duration then 1 else 0)
              && r.name == s.input && r.input == s.input && r.duration == s.duration
  {
    var r0 := Submit(s);
    if n <= s.duration {
      TicksWhileRunning(r0, n);
    } else {
      TicksWhileRunning(r0, s.duration);
      TicksCompose(r0, s.duration, n - s.duration);
      assert n == s.duration + (n - s.duration);
    }
  }

  /**
   * "Try again" keeps the name in the input, so Start can follow at once:
   * a second full run counts a second completion.
   */
  lemma SecondRunAfterTryAgain(s: State)
    requires Inv(s) && PhaseOf(s) == Idle && s.input != ""
    ensures var t := TryAgain(Ticks(Submit(s), s.duration));
              && PhaseOf(t) == Idle && t.input == s.input
              && Ticks(Submit(t), t.duration).completedCount == s.completedCount + 2
  {
    RunCompletesOnce(s, s.duration);
    var t := TryAgain(Ticks(Submit(s), s.duration));
    RunCompletesOnce(t, t.duration);
  }

  /**
   * After a reset no tick of the old run fires, and a run started afterwards
   * counts from zero: one completion after `duration` ticks, never two.
   */
  lemma RestartAfterReset(s: State, text: string, n: nat)
    requires Inv(s) && text != ""
    ensures Ticks(Reset(s), n) == Reset(s)
    ensures var r := Ticks(Submit(EditInput(Reset(s), text)), n);
              r.completedCount == (if n >= s.duration then 1 else 0)
  {
    RunCompletesOnce(EditInput(Reset(s), text), n);
  }

  /** Reloading the page restores the name and the count of any reachable state. */
  lemma ReloadRestores(s: State)
    requires Inv(s)
    ensures CountReadable(s.store)
    ensures var r := Hydrate(s.store);
              && r.name == s.name && r.input == s.name && r.completedCount == s.completedCount
              && r.store == s.store[CountKey := NatToString(s.completedCount)]
  {
    if CountKey in s.store {
      StoredCountWritten(s.store, s.completedCount);
    }
  }

  /** After a reset, a reload finds neither a name nor a count. */
  lemma ReloadAfterReset(s: State)
    requires Inv(s)
    ensures CountReadable(Reset(s).store)
    ensures Hydrate(Reset(s).store).name == "" && Hydrate(Reset(s).store).completedCount == 0
  {
    ReloadRestores(Reset(s));
  }
}
