/**
 * The package's exception hierarchy: every error carries its message, an optional cause,
 * a details map and the class-specific attributes; the constructors compose the displayed
 * text and add the attributes to the details under a test that differs per attribute.
 */
module Exceptions {
  import opened Outcomes
  import opened Values

  /** The exception that caused another one, known only through `str(cause)`. */
  datatype Cause = Cause(text: string)

  /** Which class was raised, with the attributes it stores as given. */
  datatype Attributes =
    | Base
    | Network(url: Value, statusCode: Value)
    | Parse(source: Value, selector: Value)
    | Validation(field: Value, value: Value)
    | RateLimit(url: Value, retryAfter: Value)
    | Cache(cacheKey: Value, operation: Value)
    | Configuration(parameter: Value, value: Value)

  /** A raised package error: `str(e)` is `text`. */
  datatype Error = Error(message: string, cause: Option<Cause>, details: Fields, text: string, attributes: Attributes)

  const CausedBy := " Caused by: "

  /** `details or {}`: an absent or empty map both become a fresh empty one. */
  function Given(details: Option<Fields>): (d: Fields)
    ensures details.Some? ==> d == details.value
    ensures details.None? ==> d == map[]
  {
    if details.Some? && |details.value| > 0 then details.value else map[]
  }

  /** The displayed text: the message, followed by the cause's text when there is a cause. */
  function Compose(message: string, cause: Option<Cause>): (text: string)
    ensures |text| >= |message| && text[..|message|] == message
    ensures cause.None? ==> text == message
    ensures cause.Some? ==> text[|message|..] == CausedBy + cause.value.text
  {
    if cause.Some? then message + CausedBy + cause.value.text else message
  }

  /** The cause's text can be read back from the displayed text and the message. */
  lemma ComposeRecoversCause(message: string, c: Cause)
    ensures |Compose(message, Some(c))| == |message| + |CausedBy| + |c.text|
    ensures Compose(message, Some(c))[|message| + |CausedBy|..] == c.text
  {
    var t := Compose(message, Some(c));
    assert t[|message|..] == CausedBy + c.text;
    assert t[|message| + |CausedBy|..] == t[|message|..][|CausedBy|..];
  }

  /** Two errors with the same message and a cause each display the same text only if the causes read the same. */
  lemma ComposeInjective(message: string, c1: Cause, c2: Cause)
    requires Compose(message, Some(c1)) == Compose(message, Some(c2))
    ensures c1.text == c2.text
  {
    ComposeRecoversCause(message, c1);
    ComposeRecoversCause(message, c2);
  }

  /** `key` holds `v` in `d` when it was added; otherwise `key` is as the caller left it in `caller`. */
  ghost predicate Records(caller: Fields, d: Fields, key: string, v: Value, added: bool) {
    if added then key in d && d[key] == v
    else (key in d <==> key in caller) && (key in caller ==> d[key] == caller[key])
  }

  /** Apart from `keys`, `d` is the caller's map. */
  ghost predicate KeepsOthers(caller: Fields, d: Fields, keys: set<string>) {
    forall k :: k !in keys ==> (k in d <==> k in caller) && (k in caller ==> d[k] == caller[k])
  }

  /** `details[key] = v` when `add` holds. */
  function AddIf(d: Fields, add: bool, key: string, v: Value): (r: Fields)
    ensures Records(d, r, key, v, add)
    ensures KeepsOthers(d, r, {key})
    ensures r.Keys == if add then d.Keys + {key} else d.Keys
  {
    if add then d[key := v] else d
  }

  /** Adds two attributes in turn, the first under `k1` and the second under `k2`. */
  function AddTwo(d: Fields, add1: bool, k1: string, v1: Value, add2: bool, k2: string, v2: Value): (r: Fields)
    requires k1 != k2
    ensures Records(d, r, k1, v1, add1)
    ensures Records(d, r, k2, v2, add2)
    ensures KeepsOthers(d, r, {k1, k2})
    ensures r.Keys == d.Keys + (if add1 then {k1} else {}) + (if add2 then {k2} else {})
  {
    AddIf(AddIf(d, add1, k1, v1), add2, k2, v2)
  }

  /** `USACyclingError(message, cause, details)`. */
  function NewError(message: string, cause: Option<Cause>, details: Option<Fields>, attributes: Attributes): (e: Error)
    ensures e.message == message && e.cause == cause && e.attributes == attributes
    ensures e.details == Given(details)
    ensures |e.text| >= |message| && e.text[..|message|] == message
    ensures cause.None? ==> e.text == message
    ensures cause.Some? ==> e.text[|message|..] == CausedBy + cause.value.text
  {
    Error(message, cause, Given(details), Compose(message, cause), attributes)
  }

  /** The base class. */
  function UsaCyclingError(message: string, cause: Option<Cause>, details: Option<Fields>): (e: Error)
    ensures e.message == message && e.cause == cause && e.attributes == Base
    ensures e.details == Given(details)
    ensures cause.None? ==> e.text == message
    ensures cause.Some? ==> |e.text| >= |message| && e.text[..|message|] == message && e.text[|message|..] == CausedBy + cause.value.text
  {
    NewError(message, cause, details, Base)
  }

  /** `url` and `status_code` go into the details only when truthy, so a status of 0 is left out. */
  function NetworkError(message: string, url: Value, statusCode: Value, cause: Option<Cause>, details: Option<Fields>): (e: Error)
    ensures e.message == message && e.cause == cause && e.text == Compose(message, cause)
    ensures e.attributes == Network(url, statusCode)
    ensures Records(Given(details), e.details, "url", url, Truthy(url))
    ensures Records(Given(details), e.details, "status_code", statusCode, Truthy(statusCode))
    ensures KeepsOthers(Given(details), e.details, {"url", "status_code"})
  {
    var d := Given(details);
    NewError(message, cause, Some(AddTwo(d, Truthy(url), "url", url, Truthy(statusCode), "status_code", statusCode)), Network(url, statusCode))
  }

  /** `source` and `selector` go into the details only when truthy. */
  function ParseError(message: string, source: Value, selector: Value, cause: Option<Cause>, details: Option<Fields>): (e: Error)
    ensures e.message == message && e.cause == cause && e.text == Compose(message, cause)
    ensures e.attributes == Parse(source, selector)
    ensures Records(Given(details), e.details, "source", source, Truthy(source))
    ensures Records(Given(details), e.details, "selector", selector, Truthy(selector))
    ensures KeepsOthers(Given(details), e.details, {"source", "selector"})
  {
    var d := Given(details);
    NewError(message, cause, Some(AddTwo(d, Truthy(source), "source", source, Truthy(selector), "selector", selector)), Parse(source, selector))
  }

  /** `field` goes into the details when truthy; `value` whenever it is not None, so False and 0 are kept. */
  function ValidationError(message: string, field: Value, value: Value, cause: Option<Cause>, details: Option<Fields>): (e: Error)
    ensures e.message == message && e.cause == cause && e.text == Compose(message, cause)
    ensures e.attributes == Validation(field, value)
    ensures Records(Given(details), e.details, "field", field, Truthy(field))
    ensures Records(Given(details), e.details, "value", value, !value.NoneV?)
    ensures KeepsOthers(Given(details), e.details, {"field", "value"})
  {
    var d := Given(details);
    NewError(message, cause, Some(AddTwo(d, Truthy(field), "field", field, !value.NoneV?, "value", value)), Validation(field, value))
  }

  /** `url` goes into the details when truthy; `retry_after` whenever it is not None, so a wait of 0 is kept. */
  function RateLimitError(message: string, url: Value, retryAfter: Value, cause: Option<Cause>, details: Option<Fields>): (e: Error)
    ensures e.message == message && e.cause == cause && e.text == Compose(message, cause)
    ensures e.attributes == RateLimit(url, retryAfter)
    ensures Records(Given(details), e.details, "url", url, Truthy(url))
    ensures Records(Given(details), e.details, "retry_after", retryAfter, !retryAfter.NoneV?)
    ensures KeepsOthers(Given(details), e.details, {"url", "retry_after"})
  {
    var d := Given(details);
    NewError(message, cause, Some(AddTwo(d, Truthy(url), "url", url, !retryAfter.NoneV?, "retry_after", retryAfter)), RateLimit(url, retryAfter))
  }

  /** `cache_key` and `operation` go into the details only when truthy. */
  function CacheError(message: string, cacheKey: Value, operation: Value, cause: Option<Cause>, details: Option<Fields>): (e: Error)
    ensures e.message == message && e.cause == cause && e.text == Compose(message, cause)
    ensures e.attributes == Cache(cacheKey, operation)
    ensures Records(Given(details), e.details, "cache_key", cacheKey, Truthy(cacheKey))
    ensures Records(Given(details), e.details, "operation", operation, Truthy(operation))
    ensures KeepsOthers(Given(details), e.details, {"cache_key", "operation"})
  {
    var d := Given(details);
    NewError(message, cause, Some(AddTwo(d, Truthy(cacheKey), "cache_key", cacheKey, Truthy(operation), "operation", operation)), Cache(cacheKey, operation))
  }

  /** `parameter` goes into the details when truthy; `value` whenever it is not None. */
  function ConfigurationError(message: string, parameter: Value, value: Value, cause: Option<Cause>, details: Option<Fields>): (e: Error)
    ensures e.message == message && e.cause == cause && e.text == Compose(message, cause)
    ensures e.attributes == Configuration(parameter, value)
    ensures Records(Given(details), e.details, "parameter", parameter, Truthy(parameter))
    ensures Records(Given(details), e.details, "value", value, !value.NoneV?)
    ensures KeepsOthers(Given(details), e.details, {"parameter", "value"})
  {
    var d := Given(details);
    NewError(message, cause, Some(AddTwo(d, Truthy(parameter), "parameter", parameter, !value.NoneV?, "value", value)), Configuration(parameter, value))
  }

  /** A map that records neither key and keeps every other key is the caller's map. */
  lemma NothingRecorded(caller: Fields, d: Fields, k1: string, v1: Value, k2: string, v2: Value)
    requires Records(caller, d, k1, v1, false) && Records(caller, d, k2, v2, false)
    requires KeepsOthers(caller, d, {k1, k2})
    ensures d == caller
  {
    forall k | k in caller ensures k in d && d[k] == caller[k] {
      assert k == k1 || k == k2 || k !in {k1, k2};
    }
    forall k | k in d ensures k in caller {
      assert k == k1 || k == k2 || k !in {k1, k2};
    }
  }

  /**
   * Without attributes worth recording, every subclass leaves the details exactly as the base
   * class does: `a` and `b` are any falsy values, `v` is None.
   */
  lemma {:induction false} FalsyAttributesAddNothing(
    message: string, cause: Option<Cause>, details: Option<Fields>, a: Value, b: Value, v: Value)
    requires !Truthy(a) && !Truthy(b) && v.NoneV?
    ensures NetworkError(message, a, b, cause, details).details == UsaCyclingError(message, cause, details).details
    ensures ParseError(message, a, b, cause, details).details == UsaCyclingError(message, cause, details).details
    ensures ValidationError(message, a, v, cause, details).details == UsaCyclingError(message, cause, details).details
    ensures RateLimitError(message, a, v, cause, details).details == UsaCyclingError(message, cause, details).details
    ensures CacheError(message, a, b, cause, details).details == UsaCyclingError(message, cause, details).details
    ensures ConfigurationError(message, a, v, cause, details).details == UsaCyclingError(message, cause, details).details
  {
    var d := Given(details);
    NothingRecorded(d, NetworkError(message, a, b, cause, details).details, "url", a, "status_code", b);
    NothingRecorded(d, ParseError(message, a, b, cause, details).details, "source", a, "selector", b);
    NothingRecorded(d, ValidationError(message, a, v, cause, details).details, "field", a, "value", v);
    NothingRecorded(d, RateLimitError(message, a, v, cause, details).details, "url", a, "retry_after", v);
    NothingRecorded(d, CacheError(message, a, b, cause, details).details, "cache_key", a, "operation", b);
    NothingRecorded(d, ConfigurationError(message, a, v, cause, details).details, "parameter", a, "value", v);
  }

  /** The two tests differ exactly on falsy values that are not None: 0 and False. */
  lemma ZeroAndFalseDiffer(message: string)
    ensures "status_code" !in NetworkError(message, NoneV, IntV(0), None, None).details
    ensures "retry_after" in RateLimitError(message, NoneV, IntV(0), None, None).details
    ensures "field" !in ValidationError(message, BoolV(false), BoolV(false), None, None).details
    ensures ValidationError(message, BoolV(false), BoolV(false), None, None).details == map["value" := BoolV(false)]
    ensures ConfigurationError(message, NoneV, IntV(0), None, None).details == map["value" := IntV(0)]
  {
  }

  /** An added attribute replaces the caller's entry under the same key and leaves every other entry alone. */
  lemma AddedKeysOverrideCaller(message: string, url: Value, cause: Option<Cause>, caller: Fields)
    requires Truthy(url)
    ensures NetworkError(message, url, NoneV, cause, Some(caller)).details == caller["url" := url]
  {
  }
}
