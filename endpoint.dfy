/** `src/endpoint/mod.rs`: the `NotFoundError` response error and the `index` greeting.
    Its `configure` is in module EndpointRoutes, which can see the site routes. */
module Endpoint {
  import opened Outcomes
  import opened Http

  /** `NotFoundError()`, made by `NotFoundError::new()`: a response error with no content. */
  datatype NotFoundError = New
  {
    /** `Display` writes nothing. */
    function Display(): string
    {
      ""
    }

    function StatusCode(): int
    {
      StatusNotFound
    }

    /** `HttpResponse::build(self.status_code()).finish()`: the status, no body. */
    function ErrorResponse(): Response
    {
      Response(StatusCode(), Empty)
    }

    /** What `?` makes of it: an actix `Error` rendering `ErrorResponse()`. */
    function Into(): HttpError
    {
      HttpError(ErrorResponse())
    }
  }

  /** Whatever the handler, a NotFoundError is a 404 with an empty body and no text. */
  lemma NotFoundRendering(e: NotFoundError)
    ensures e.StatusCode() == 404
    ensures e.ErrorResponse() == Response(404, Empty)
    ensures e.Into().response == e.ErrorResponse()
    ensures e.Display() == ""
  {
  }

  // ---------------------------------------------------------------------------------
  // index: GET /{id}/{name}/ answers "Hello {name}! id:{id}"

  /** `id` is extracted as a Rust `u32`. */
  newtype U32 = x: int | 0 <= x < 0x1_0000_0000

  predicate IsDigit(c: char)
  {
    '0' <= c <= '9'
  }

  predicate AllDigits(s: string)
  {
    forall i :: 0 <= i < |s| ==> IsDigit(s[i])
  }

  function DigitChar(d: nat): (c: char)
    requires d < 10
    ensures IsDigit(c) && c as int - '0' as int == d
  {
    ['0', '1', '2', '3', '4', '5', '6', '7', '8', '9'][d]
  }

  /** `{}` of an unsigned integer: its decimal digits, no sign, no leading zero. */
  function Decimal(n: nat): (s: string)
    ensures |s| >= 1 && AllDigits(s)
    ensures s[0] == '0' ==> n == 0
    decreases n
  {
    if n < 10 then [DigitChar(n)] else Decimal(n / 10) + [DigitChar(n % 10)]
  }

  /** Reading decimal digits back as a number. */
  function ParseDecimal(s: string): nat
    requires AllDigits(s)
  {
    if s == [] then 0 else ParseDecimal(s[..|s| - 1]) * 10 + (s[|s| - 1] as int - '0' as int)
  }

  lemma {:induction false} DecimalRoundTrip(n: nat)
    ensures ParseDecimal(Decimal(n)) == n
    decreases n
  {
    if n >= 10 {
      var s := Decimal(n);
      assert s[..|s| - 1] == Decimal(n / 10);
      DecimalRoundTrip(n / 10);
    }
  }

  /** `format!("Hello {}! id:{}", name, id)`. */
  function Index(id: U32, name: string): string
  {
    "Hello " + name + "! id:" + Decimal(id as nat)
  }

  /** The length of the longest run of digits ending `s`. */
  function TrailingDigits(s: string): (k: nat)
    ensures k <= |s|
  {
    if s == [] || !IsDigit(s[|s| - 1]) then 0 else 1 + TrailingDigits(s[..|s| - 1])
  }

  /** Read a greeting back into the id and the name it was made from. */
  function ParseGreeting(g: string): Option<(U32, string)>
  {
    var k := TrailingDigits(g);
    var head, digits := g[..|g| - k], g[|g| - k..];
    if k == 0 || |head| < 11 || head[..6] != "Hello " || head[|head| - 5..] != "! id:" then None
    else
      assert AllDigits(digits) by { TrailingDigitsAreDigits(g); }
      var n := ParseDecimal(digits);
      if n < 0x1_0000_0000 then Some((n as U32, head[6..|head| - 5])) else None
  }

  lemma {:induction false} TrailingDigitsAreDigits(s: string)
    ensures AllDigits(s[|s| - TrailingDigits(s)..])
  {
    if s != [] && IsDigit(s[|s| - 1]) {
      var init := s[..|s| - 1];
      TrailingDigitsAreDigits(init);
      assert s[|s| - TrailingDigits(s)..] == init[|init| - TrailingDigits(init)..] + [s[|s| - 1]];
    }
  }

  /** Digits after a non-digit are exactly the trailing run. */
  lemma {:induction false} TrailingDigitsOf(head: string, digits: string)
    requires |head| > 0 && !IsDigit(head[|head| - 1]) && AllDigits(digits)
    ensures TrailingDigits(head + digits) == |digits|
    decreases |digits|
  {
    var s := head + digits;
    if digits == [] {
      assert s == head;
    } else {
      assert s[..|s| - 1] == head + digits[..|digits| - 1];
      TrailingDigitsOf(head, digits[..|digits| - 1]);
    }
  }

  /** The greeting determines the name and the id it was made from. */
  lemma GreetingRoundTrip(id: U32, name: string)
    ensures ParseGreeting(Index(id, name)) == Some((id, name))
  {
    var g := Index(id, name);
    var head := "Hello " + name + "! id:";
    var digits := Decimal(id as nat);
    assert g == head + digits;
    TrailingDigitsOf(head, digits);
    assert g[..|g| - |digits|] == head;
    assert g[|g| - |digits|..] == digits;
    assert head[..6] == "Hello ";
    assert head[|head| - 5..] == "! id:";
    assert head[6..|head| - 5] == name;
    DecimalRoundTrip(id as nat);
  }

  /** The greeting is answered as text with status 200. */
  lemma IndexResponds(id: U32, name: string)
    ensures Respond(Ok(PlainText(Index(id, name)))) == Response(200, PlainText(Index(id, name)))
  {
  }
}
