# Countdown timer session — a Dafny model

The timer page of this repository lets a user enter a name, pick a duration
of 10, 20 or 30 seconds and start a countdown. A one-second interval advances
the counter. On the last second the run ends: the page counts one completion
and requests a motivational quote from a remote service. "Try again" returns
to the form and keeps the name and the count. "Reset" clears both, in memory
and in the browser's local storage, where the page keeps the name under
`timer_name` and the count under `timer_completed_count`.

The model has five modules:

- `Quotes` (quotes.dfy): the quote service's payload as a JSON value, with
  JavaScript truthiness, and the rule that decides whether a payload fills
  the quote slot.
- `Storage` (storage.dfy): the two storage keys and the decimal text of the
  count (`String(n)` when written, `Number(text)` when read back), with the
  round trip between them.
- `Machine` (machine.dfy): the session as a state machine over values. The
  `State` datatype holds the component's state variables, whether an interval
  is scheduled, how many quote requests are outstanding, and the store. There
  is one transition function per handler and one for the interval callback.
  Each transition also includes the React effects that run after its render:
  persisting the name and count, zeroing the counter and scheduling the
  interval on start, and emptying the quote slot and issuing the request on
  completion. `Inv` is the invariant every reachable state keeps. The lemmas
  cover runs of many ticks, restarts and reloads.
- `TimerPage` (timer_page.dfy): the component as a class `Session` whose
  fields are the state variables, the interval handle (as a boolean) and the
  store (a `map`). Its mutating methods update the fields in place. Each
  of them ensures `Valid()` and that the new state is the `Machine`
  transition applied to the old one. `SecondsLeft` is a query that changes
  nothing.
- `Wrappers` (wrappers.dfy): `Option`, for `null` and `undefined`.

Timing is explicit. Each firing of the interval is a call of `Tick`, and
"the interval was cleared" is `ticking == false`. Network results arrive as a
`Settlement` argument of `QuoteSettled`. The store's initial contents are the
argument of the `Hydrate` constructor.

Behaviours of the code that are easy to miss, and that the model keeps:

- Reset and the stored count. Reset removes both keys. But when the count was
  not already 0, the count-persist effect then runs for the new value 0 and
  writes `"0"` back under `timer_completed_count`. `Machine.Reset` states
  this. A reload still reads a count of 0 (`Machine.ReloadAfterReset`).
- Stale quote requests. The code does not tie a quote request to the run
  that issued it. A request that settles after "try again" or "reset" still
  writes the quote slot and clears the loading flag. `Machine.Settle`
  therefore applies in every phase.
- Empty names. An empty name is not rejected by code. The form's `required`
  attribute stops the submission, so a non-empty input is a precondition of
  `Submit`.
- Reset's availability. The reset button appears only in the running view.
  The handler itself works from any state, and `Reset` is modelled that way.

## Model

| member | source | states |
|---|---|---|
| `Quotes.AcceptPayload` | timer/src/app/page.tsx:73-78 | a quote is taken exactly when the payload is an array whose first element is an object with truthy `q` and `a`; the quote is those two members |
| `Quotes.SettledQuote` | timer/src/app/page.tsx:72-81 | after settling, the slot is filled exactly for a resolved body that passes the acceptance test, and then with that body's accepted quote; a rejected request or unparsable body leaves it empty |
| `Quotes.StringPayload` | timer/src/app/page.tsx:74-75 | `[{q, a}, ...]` with string members gives the quote `(q, a)` exactly when both strings are non-empty |
| `Quotes.NoQuote` | timer/src/app/page.tsx:74-80 | an empty array and a failed request both give no quote |
| `Storage.NatToString` | timer/src/app/page.tsx:40 | the written count is non-empty decimal text without leading zeros |
| `Storage.DecimalRoundTrip` | timer/src/app/page.tsx:26-40 | reading back a written count gives the same number |
| `Storage.NatToStringInjective` | timer/src/app/page.tsx:40 | different counts are written as different texts |
| `Storage.StoredCountWritten` | timer/src/app/page.tsx:26-29 | a store holding `String(n)` under the count key loads the count `n` |
| `Machine.Hydrate` | timer/src/app/page.tsx:20-41 | page load: a non-empty stored name fills both name and input, the stored count becomes the count, the page is idle, and the store ends up holding the canonical text of the loaded count |
| `Machine.EditInput` | timer/src/app/page.tsx:128-131 | typing changes only the input; name, count, duration and store are kept |
| `Machine.SelectDuration` | timer/src/app/page.tsx:137-145 | choosing 10, 20 or 30 changes only the duration |
| `Machine.Submit` | timer/src/app/page.tsx:85-90 | a submission starts a run: Running, interval live, counter at 0, name taken from the input and stored under the name key; count, duration, input, quote slot, outstanding requests and every other store entry kept |
| `Machine.Tick` | timer/src/app/page.tsx:47-59 | below the last second: counter +1, still running, count, quote and store unchanged; on the last second: counter clamped to the duration, Done, interval cleared, count +1 and stored, quote emptied and loading |
| `Machine.Settle` | timer/src/app/page.tsx:67-83 | settling clears the loading flag in every case and fills the quote exactly for an accepted payload, with that payload's members, in whatever phase the page is in; phase, counter, name, input, duration, count and store are kept |
| `Machine.SettleExample` | timer/src/app/page.tsx:73-81 | settling with `[{q: "A", a: "B"}]` fills the slot with `("A", "B")`; a rejected request or an empty array leaves it empty; loading is cleared in each case |
| `Machine.TryAgain` | timer/src/app/page.tsx:104-111 | back to Idle with the interval cleared, counter 0, quote empty and not loading; name, input, duration, count and store kept |
| `Machine.Reset` | timer/src/app/page.tsx:92-102 | back to Idle with the interval cleared; name, input, counter and count cleared; the stored name removed; the stored count removed, or `"0"` if the count was non-zero; other keys, duration and the quote slot kept |
| `Machine.Ticks` | timer/src/app/page.tsx:46-60 | any number of interval firings keeps the invariant, never lowers the count, and changes nothing once the interval is cleared |
| `Machine.TicksCompose` | timer/src/app/page.tsx:46-60 | `m + n` firings are `m` firings followed by `n` |
| `Machine.TicksWhileRunning` | timer/src/app/page.tsx:47-58 | from a running state, `n` ticks add `n` seconds; the run is Done exactly when the counter reaches the duration, and only then is one completion counted; name, input and duration are kept |
| `Machine.RunCompletesOnce` | timer/src/app/page.tsx:44-58 | after Submit, `n` ticks reach Done exactly when `n >= duration`; the counter is `min(n, duration)`, and the count rises by exactly one once Done is reached; input and duration are kept |
| `Machine.SecondRunAfterTryAgain` | timer/src/app/page.tsx:104-111 | after a completed run, "try again" returns to the form with the input still holding the name, and Start followed by `duration` ticks counts a second completion |
| `Machine.RestartAfterReset` | timer/src/app/page.tsx:92-102 | after Reset no tick fires; a new run then counts exactly one completion after `duration` ticks, never two |
| `Machine.ReloadRestores` | timer/src/app/page.tsx:20-41 | reloading any reachable state restores its name and count, and fills the input with the name; the store gains only the canonical count entry |
| `Machine.ReloadAfterReset` | timer/src/app/page.tsx:92-101 | after Reset, a reload finds an empty name and a count of 0 |
| `TimerPage.Session.Hydrate` | timer/src/app/page.tsx:20-41 | the constructed session is valid and equals `Machine.Hydrate` of the saved store |
| `TimerPage.Session.EditInput` | timer/src/app/page.tsx:130-131 | the in-place update equals `Machine.EditInput` |
| `TimerPage.Session.SelectDuration` | timer/src/app/page.tsx:138-139 | the in-place update equals `Machine.SelectDuration` |
| `TimerPage.Session.Submit` | timer/src/app/page.tsx:85-90 | the in-place update equals `Machine.Submit`: running, interval live, counter 0 |
| `TimerPage.Session.Tick` | timer/src/app/page.tsx:47-59 | the in-place update equals `Machine.Tick`; Done exactly when the previous counter was at least `duration - 1`, and then the count is one higher |
| `TimerPage.Session.QuoteSettled` | timer/src/app/page.tsx:71-81 | the in-place update equals `Machine.Settle`; not loading, with a quote exactly for an accepted payload |
| `TimerPage.Session.Reset` | timer/src/app/page.tsx:92-102 | the in-place update equals `Machine.Reset` |
| `TimerPage.Session.TryAgain` | timer/src/app/page.tsx:104-111 | the in-place update equals `Machine.TryAgain` |
| `TimerPage.Session.SecondsLeft` | timer/src/app/page.tsx:151 | the remaining time shown while running is `duration - seconds`, between 1 and the duration, so never negative |

The contracts above are stated with these definitions. Each models source lines
directly and carries no contract of its own:

- `Machine.PhaseOf` maps the two phase flags to the three views the page renders:
  Idle is `!started` (timer/src/app/page.tsx:125), Running is `started && !done` (:149)
  and Done is `done` (:161).
- `Machine.DurationChoice` is the selector's options, 10, 20 or 30 seconds
  (timer/src/app/page.tsx:142-144).
- `Quotes.Present` is the truthiness of a value that may be `undefined`: one operand of the
  `data[0]?.q && data[0]?.a` test (timer/src/app/page.tsx:74).

- `Quotes.IsQuotePayload` is the condition `Array.isArray(data) && data[0]?.q && data[0]?.a`
  (timer/src/app/page.tsx:74). It is built from `First` (`data[0]`, undefined for an empty
  array), `Member` (`?.` access, undefined unless the value is an object with that key) and
  `Truthy` (JavaScript truthiness of a JSON value).
- `Storage.StoredName` is `localStorage.getItem("timer_name")`, with a missing entry read as
  the empty name (timer/src/app/page.tsx:21-22).
- `Storage.StoredCount` is the `if (savedCount)` test and `Number(savedCount)` at
  timer/src/app/page.tsx:26-29: a missing or empty entry leaves the count at 0.
- `Storage.DecimalValue` is `Number` on a string of decimal digits, with leading zeros
  allowed (timer/src/app/page.tsx:28).

## Left out

- The quote proxy route (timer/src/app/api/quote/route.ts) just forwards a `fetch` and is not modelled. The page calls the remote service directly, and its outcome is the `Settlement` argument.
- Real time is not modelled: `setInterval`, `clearInterval` and React's effect scheduling. A tick is a method call, and the interval handle is the boolean `ticking`.
- React's batching and update queues are not modelled. Each handler and each tick, with the effects that follow its render, is one atomic transition.
- Development-only StrictMode behaviour is left out: the double call of state updaters, and the double run of mount effects. In that second run the load effect would read the `"0"` that the first count effect wrote, so a development reload could lose the count. The model describes the single mount of a production build.
- Audio playback, the theme context and toggle, the JSX and the styling are presentation only.
- The progress-bar percentage is floating-point and is left out.
- `Number(savedCount)` is modelled only for decimal digit strings. This is the precondition `CountReadable` of `Hydrate`. Other texts (whitespace, exponents, non-numbers) and the float precision of very large counts are not modelled.
- JSON numbers in the quote payload are integers. Only their truthiness (non-zero) matters to the acceptance test. Fractional values are not modelled.
- `pendingFetches` is bookkeeping of the model, not a variable of the source. It lets a settlement follow only a request that was issued.
