/** Waiter acceptors (src/Definition/WaiterAcceptor.php): a declarative polling rule
    made of a matcher kind, an expected value, an argument and a resulting state. */
module Waiters {
  import opened Base
  import Strings

  const MatcherStatus: string := "status"
  const MatcherPath: string := "path"
  const MatcherError: string := "error"

  const StateSuccess: string := "success"
  const StateRetry: string := "retry"
  const StateFailure: string := "failure"

  /** The raw acceptor record. `expected` and `argument` may hold any raw value
      (a status code is an integer, a path match may expect a boolean), and may
      be absent: `status` and `error` matchers carry no `argument`. */
  datatype AcceptorRecord = AcceptorRecord(matcher: string, expected: Option<Value>, argument: Option<Value>, state: string)

  /** `ErrorVariant` is the error-code specialisation, `GenericVariant` the base class. */
  datatype Variant = ErrorVariant | GenericVariant

  datatype WaiterAcceptor = WaiterAcceptor(variant: Variant, data: AcceptorRecord)

  /** One of the three states the class declares constants for. */
  predicate IsDeclaredState(state: string) {
    state == StateSuccess || state == StateRetry || state == StateFailure
  }

  /** `WaiterAcceptor::create`: the error specialisation exactly for the `error`
      matcher, the generic acceptor for every other matcher string, and the
      record kept unchanged. Nothing is validated, so creation never fails. */
  function Create(data: AcceptorRecord): (w: WaiterAcceptor)
    ensures w.variant == ErrorVariant <==> data.matcher == MatcherError
    ensures w.variant == GenericVariant <==> data.matcher != MatcherError
    ensures w.data == data
  {
    if data.matcher == MatcherError then WaiterAcceptor(ErrorVariant, data)
    else WaiterAcceptor(GenericVariant, data)
  }

  /** PHP's `(string)` cast of a raw value: strings unchanged, integers in
      decimal, `true` as "1", `false` as the empty string, arrays as "Array". */
  function CastToString(v: Value): (r: string)
    ensures v.Str? ==> r == v.s
    ensures v.Int? ==> Strings.IsCanonicalDecimal(r) && Strings.ParseDecimal(r) == v.i
    ensures v.Bool? ==> (r == "1" <==> v.b) && (r == "" <==> !v.b)
    ensures v.List? || v.Record? ==> r == "Array"
  {
    match v
    case Str(s) => s
    case Int(i) =>
      Strings.DecimalRoundTrip(i);
      Strings.DecimalString(i)
    case Bool(b) => if b then "1" else ""
    case List(_) => "Array"
    case Record(_) => "Array"
  }

  /** The `(string)` cast of a record field: a missing key reads as `null`,
      which casts to the empty string. */
  function CastField(v: Option<Value>): string {
    match v
    case Some(x) => CastToString(x)
    case None => ""
  }

  function GetMatcher(w: WaiterAcceptor): string {
    w.data.matcher
  }

  function GetExpected(w: WaiterAcceptor): string {
    CastField(w.data.expected)
  }

  function GetArgument(w: WaiterAcceptor): string {
    CastField(w.data.argument)
  }

  function GetState(w: WaiterAcceptor): string {
    w.data.state
  }

  /** A created acceptor hands back what it was given: the matcher and the state
      verbatim; `expected` and `argument` as PHP casts them to strings, i.e. a
      string verbatim, an integer in canonical decimal form reading back as the
      same integer, `true` as "1", `false` as "", an array as "Array", and a
      missing field as "". */
  lemma CreateProjections(data: AcceptorRecord)
    ensures GetMatcher(Create(data)) == data.matcher
    ensures GetState(Create(data)) == data.state
    ensures data.expected.None? ==> GetExpected(Create(data)) == ""
    ensures data.argument.None? ==> GetArgument(Create(data)) == ""
    ensures data.expected.Some? ==> GetExpected(Create(data)) == CastToString(data.expected.value)
    ensures data.argument.Some? ==> GetArgument(Create(data)) == CastToString(data.argument.value)
    ensures data.expected.Some? && data.expected.value.Int? ==>
      Strings.IsCanonicalDecimal(GetExpected(Create(data))) &&
      Strings.ParseDecimal(GetExpected(Create(data))) == data.expected.value.i
    ensures data.argument.Some? && data.argument.value.Int? ==>
      Strings.IsCanonicalDecimal(GetArgument(Create(data))) &&
      Strings.ParseDecimal(GetArgument(Create(data))) == data.argument.value.i
    ensures data.expected == Some(Bool(true)) ==> GetExpected(Create(data)) == "1"
    ensures data.expected == Some(Bool(false)) ==> GetExpected(Create(data)) == ""
  {
  }

  /** The cast keeps distinct integers distinct, so an integer `expected` value
      is never confused with another one after it becomes a string. */
  lemma CastIntInjective(i: int, j: int)
    requires CastToString(Int(i)) == CastToString(Int(j))
    ensures i == j
  {
    Strings.DecimalRoundTrip(i);
    Strings.DecimalRoundTrip(j);
  }

  /** The state constants are declared but not enforced: a record whose state
      is none of the three constants still yields an acceptor, and that
      acceptor reports the undeclared state. */
  lemma StateNotValidated(matcher: string, expected: Option<Value>, argument: Option<Value>, state: string)
    requires !IsDeclaredState(state)
    ensures var w := Create(AcceptorRecord(matcher, expected, argument, state));
      GetState(w) == state && !IsDeclaredState(GetState(w))
  {
  }

  /** For instance, the state "pending" is accepted and reported as is. */
  lemma PendingStateAccepted()
    ensures var w := Create(AcceptorRecord(MatcherStatus, Some(Int(200)), None, "pending"));
      GetState(w) == "pending" && !IsDeclaredState(GetState(w))
  {
    StateNotValidated(MatcherStatus, Some(Int(200)), None, "pending");
  }

  /** The path-matcher example: `{matcher: "path", expected: "available",
      argument: "State", state: "success"}` gives a generic acceptor that
      reports those values. */
  lemma PathAcceptorExample()
    ensures var w := Create(AcceptorRecord("path", Some(Str("available")), Some(Str("State")), "success"));
      w.variant == GenericVariant && GetMatcher(w) == MatcherPath &&
      GetExpected(w) == "available" && GetArgument(w) == "State" && GetState(w) == StateSuccess
  {
  }
}
