/**
  * What a request to the backend can come back with. The transport itself
  * (XMLHttpRequest, its timeouts) is outside the model: a reply is given as
  * a value, and a response body is given already parsed.
  */
module Http {
  import opened Wrappers
  import opened Strings

  /** Why an XMLHttpRequest rejected instead of loading. */
  datatype Transport = NetworkFailure | TimedOut

  /**
    * The result of `JSON.parse` on a response body: a syntax error with its
    * message, or an object whose optional `detail` field the error paths read
    * and whose `payload` holds the fields the TypeScript type of that endpoint
    * declares.
    */
  datatype Body<P> = Unparsable(syntaxError: string) | Parsed(detail: Option<string>, payload: P)

  /** `onerror`/`ontimeout`, or `onload` with the status and the body. */
  datatype Reply<P> = Failed(cause: Transport) | Response(status: nat, body: Body<P>)

  /**
    * A request as the transport helper is given it: the HTTP method, the URL,
    * the headers in the order they are set, and a body when one is sent.
    */
  datatype Request<B> = Request(verb: string, url: string, headers: seq<(string, string)>, body: Option<B>)

  /** The success test both services apply to a status: `!(status < 200 || status >= 300)`. */
  predicate IsSuccess(status: nat) {
    200 <= status < 300
  }

  /** `parsed.detail || fallback`: a missing or empty `detail` falls back. */
  function DetailOr(body: Body, fallback: string): (message: string)
    ensures message == fallback || (body.Parsed? && body.detail == Some(message) && message != [])
    ensures body.Parsed? && body.detail.Some? && body.detail.value != [] ==> message == body.detail.value
  {
    if body.Parsed? && body.detail.Some? && body.detail.value != [] then body.detail.value else fallback
  }

  /** The digits at the end of `s`. */
  function TrailingDigits(s: string): (d: string)
    ensures |d| <= |s| && d == s[|s| - |d|..]
    ensures forall i :: 0 <= i < |d| ==> IsDigit(d[i])
    ensures |d| < |s| ==> !IsDigit(s[|s| - |d| - 1])
    decreases |s|
  {
    if s != [] && IsDigit(s[|s| - 1]) then TrailingDigits(s[..|s| - 1]) + [s[|s| - 1]] else []
  }

  /** Reads the status back from a message ending in `(digits)`, as a reader of the message would. */
  function StatusIn(message: string): Option<nat> {
    if |message| < 3 || message[|message| - 1] != ')' then None
    else
      var inner := message[..|message| - 1];
      var digits := TrailingDigits(inner);
      if digits == [] || |digits| == |inner| || inner[|inner| - |digits| - 1] != '(' then None
      else Some(ParseDecimal(digits))
  }

  /** Digits after a part that does not end in a digit are exactly the trailing digits. */
  lemma {:induction false} TrailingDigitsAfter(a: string, d: string)
    requires forall i :: 0 <= i < |d| ==> IsDigit(d[i])
    requires a != [] && !IsDigit(a[|a| - 1])
    ensures TrailingDigits(a + d) == d
    decreases |d|
  {
    if d == [] {
      assert a + d == a;
    } else {
      TrailingDigitsAfter(a, d[..|d| - 1]);
      assert (a + d)[..|a + d| - 1] == a + d[..|d| - 1];
      assert d[..|d| - 1] + [d[|d| - 1]] == d;
    }
  }

  /**
    * The status-coded error message of a request, `${prefix} (${status})`.
    * It names its status: reading it back gives the status, whatever the prefix.
    */
  function StatusMessage(prefix: string, status: nat): (m: string)
    ensures StatusIn(m) == Some(status)
  {
    var a := prefix + " (";
    var d := Decimal(status);
    var m := a + d + ")";
    assert m[..|m| - 1] == a + d;
    TrailingDigitsAfter(a, d);
    ParseDecimalOfDecimal(status);
    m
  }
}
