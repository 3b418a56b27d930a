/**
 * The quote payload returned by the remote random-quote service, and the
 * rule the timer page uses to accept it (timer/src/app/page.tsx:67-83).
 *
 * The body is whatever `res.json()` produced, so it is modelled as a JSON
 * value, and the acceptance test follows JavaScript's truthiness rules:
 * `data[0]?.q` is `undefined` when the array is empty or its first element
 * is not an object with a `q` member.
 */
module Quotes {
  import opened Wrappers

  datatype Json =
    | JNull
    | JBool(b: bool)
    | JNumber(n: int)
    | JString(s: string)
    | JArray(items: seq<Json>)
    | JObject(fields: map<string, Json>)

  /** How a quote request settled: a parsed body, or a rejected fetch / unparsable body. */
  datatype Settlement = Resolved(body: Json) | Rejected

  /** The quote slot's content: the `q` (text) and `a` (author) members, as delivered. */
  datatype Quote = Quote(q: Json, a: Json)

  /** JavaScript truthiness of a JSON value. */
  predicate Truthy(v: Json)
  {
    match v
    case JNull => false
    case JBool(b) => b
    case JNumber(n) => n != 0
    case JString(s) => s != ""
    case JArray(_) => true
    case JObject(_) => true
  }

  /** Truthiness of a value that may be `undefined` (None). */
  predicate Present(o: Option<Json>)
  {
    o.Some? && Truthy(o.value)
  }

  /** `data[0]` of an array: `undefined` when the array is empty. */
  function First(items: seq<Json>): Option<Json>
  {
    if |items| > 0 then Some(items[0]) else None
  }

  /** Optional member access `v?.key`. */
  function Member(v: Option<Json>, key: string): Option<Json>
  {
    match v
    case Some(JObject(fields)) => if key in fields then Some(fields[key]) else None
    case _ => None
  }

  /** The acceptance condition `Array.isArray(data) && data[0]?.q && data[0]?.a`. */
  predicate IsQuotePayload(data: Json)
  {
    data.JArray? && Present(Member(First(data.items), "q")) && Present(Member(First(data.items), "a"))
  }

  /**
   * What the success handler stores: the first element's `q` and `a` when the
   * payload passes the test, nothing otherwise.  The contract restates the rule
   * directly on the shape of the payload.
   */
  function AcceptPayload(data: Json): (r: Option<Quote>)
    ensures r.Some? ==>
              && data.JArray? && |data.items| > 0 && data.items[0].JObject?
              && "q" in data.items[0].fields && "a" in data.items[0].fields
              && r.value == Quote(data.items[0].fields["q"], data.items[0].fields["a"])
              && Truthy(r.value.q) && Truthy(r.value.a)
    ensures (&& data.JArray? && |data.items| > 0 && data.items[0].JObject?
             && "q" in data.items[0].fields && "a" in data.items[0].fields
             && Truthy(data.items[0].fields["q"]) && Truthy(data.items[0].fields["a"]))
            ==> r.Some?
  {
    if IsQuotePayload(data) then
      Some(Quote(Member(First(data.items), "q").value, Member(First(data.items), "a").value))
    else
      None
  }

  /** The quote slot once a request has settled: the `.catch` branch leaves it empty. */
  function SettledQuote(outcome: Settlement): (r: Option<Quote>)
    ensures r.Some? ==> outcome.Resolved? && IsQuotePayload(outcome.body)
    ensures outcome.Resolved? && IsQuotePayload(outcome.body) ==> r.Some?
    ensures r.Some? ==> outcome.Resolved? && r == AcceptPayload(outcome.body)
  {
    match outcome
    case Resolved(body) => AcceptPayload(body)
    case Rejected => None
  }

  /**
   * A payload of string members, as the service sends it: the quote is taken
   * exactly when both strings are non-empty, whatever follows the first element.
   */
  lemma StringPayload(q: string, a: string, rest: seq<Json>)
    ensures AcceptPayload(JArray([JObject(map["q" := JString(q), "a" := JString(a)])] + rest))
            == if q != "" && a != "" then Some(Quote(JString(q), JString(a))) else None
  {
  }

  /** An empty array, and a failed request, both leave the slot empty. */
  lemma NoQuote()
    ensures AcceptPayload(JArray([])) == None
    ensures SettledQuote(Rejected) == None
  {
  }
}
