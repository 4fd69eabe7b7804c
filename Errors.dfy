/** The SDK's typed errors (src/utils/errors.ts): a base error and four
    subkinds, each with a fixed `name` tag and a message built from its
    arguments. `BuiltInError` stands for the plain JavaScript errors the SDK
    also throws (`new Error(...)` for argument validation, and the engine's
    TypeError in two corner cases); it is not a DexPaprikaError. */
module Errors {
  import opened Wrappers
  import opened Text

  datatype ErrorKind =
    | BaseKind
    | NetworkNotFoundKind
    | PoolNotFoundKind
    | ApiKind
    | DeprecatedEndpointKind
    | BuiltInKind

  const ChangelogUrl := "https://docs.dexpaprika.com/changelog/changelog"

  datatype SdkError =
    | DexPaprikaError(detail: string)
    | NetworkNotFoundError(networkId: string)
    | PoolNotFoundError(poolAddress: string)
    | ApiError(apiMessage: string, statusCode: int)
    | DeprecatedEndpointError(endpoint: string, alternative: string)
    | BuiltInError(builtInName: string, builtInMessage: string)
  {
    function Kind(): ErrorKind {
      match this
      case DexPaprikaError(_) => BaseKind
      case NetworkNotFoundError(_) => NetworkNotFoundKind
      case PoolNotFoundError(_) => PoolNotFoundKind
      case ApiError(_, _) => ApiKind
      case DeprecatedEndpointError(_, _) => DeprecatedEndpointKind
      case BuiltInError(_, _) => BuiltInKind
    }

    /** `instanceof DexPaprikaError`: every kind but the built-in errors. */
    predicate IsDexPaprikaError() {
      !BuiltInError?
    }

    /** The `name` property each constructor sets. */
    function Name(): string {
      match this
      case DexPaprikaError(_) => "DexPaprikaError"
      case NetworkNotFoundError(_) => "NetworkNotFoundError"
      case PoolNotFoundError(_) => "PoolNotFoundError"
      case ApiError(_, _) => "ApiError"
      case DeprecatedEndpointError(_, _) => "DeprecatedEndpointError"
      case BuiltInError(n, _) => n
    }

    /** The message each constructor passes to `super`. */
    function Message(): string {
      match this
      case DexPaprikaError(m) => m
      case NetworkNotFoundError(id) => "Network not found: " + id
      case PoolNotFoundError(addr) => "Pool not found: " + addr
      case ApiError(m, s) => ApiMessage(m, s)
      case DeprecatedEndpointError(e, alt) => DeprecationNotice(e) + Suggestion(alt) + MoreInformation
      case BuiltInError(_, m) => m
    }

    /** `statusCode`, which only ApiError defines. */
    function StatusCode(): (r: Option<int>)
      ensures r.Some? <==> ApiError?
    {
      if ApiError? then Some(statusCode) else None
    }
  }

  /** The five SDK kinds carry pairwise distinct names, so `name` tells them apart. */
  lemma NameDeterminesKind(a: SdkError, b: SdkError)
    requires a.IsDexPaprikaError() && b.IsDexPaprikaError()
    ensures a.Name() == b.Name() <==> a.Kind() == b.Kind()
  {
  }

  /** The message of a not-found error is a fixed prefix followed by the
      identifier, so the identifier can be read back from it. */
  lemma NotFoundMessageCarriesId(e: SdkError)
    requires e.NetworkNotFoundError? || e.PoolNotFoundError?
    ensures var prefix := if e.NetworkNotFoundError? then "Network not found: " else "Pool not found: ";
            var id := if e.NetworkNotFoundError? then e.networkId else e.poolAddress;
            IsPrefix(prefix, e.Message()) && e.Message()[|prefix|..] == id
  {
  }

  function ApiMessage(message: string, status: int): string {
    "API Error (" + IntToString(status) + "): " + message
  }

  /** Two API errors with the same message agree on status and server text:
      the status is rendered first and contains no ')'. */
  lemma ApiErrorMessageInjective(m1: string, s1: int, m2: string, s2: int)
    requires ApiError(m1, s1).Message() == ApiError(m2, s2).Message()
    ensures s1 == s2 && m1 == m2
  {
    ApiMessageInjective(m1, s1, m2, s2);
  }

  lemma ApiMessageInjective(m1: string, s1: int, m2: string, s2: int)
    requires ApiMessage(m1, s1) == ApiMessage(m2, s2)
    ensures s1 == s2 && m1 == m2
  {
    var p := "API Error (";
    var a, b := IntToString(s1), IntToString(s2);
    var x, y := a + [')'] + (": " + m1), b + [')'] + (": " + m2);
    assert ApiMessage(m1, s1) == p + x;
    assert ApiMessage(m2, s2) == p + y;
    assert x == (p + x)[|p|..] == (p + y)[|p|..] == y;
    // the status is everything before the first ')'
    assert ')' !in a && ')' !in b;
    SplitAtFirstStop(a, ": " + m1, b, ": " + m2, ')');
    IntToStringInjective(s1, s2);
    assert m1 == (": " + m1)[2..] == (": " + m2)[2..] == m2;
  }

  /** The three sentences of a deprecation message. */
  function DeprecationNotice(endpoint: string): string {
    "The " + endpoint + " endpoint has been deprecated and removed. "
  }

  function Suggestion(alternative: string): string {
    "Please use " + alternative + " instead. "
  }

  const MoreInformation := "For more information, visit: " + ChangelogUrl

  /** The deprecation message names the endpoint first, then the
      alternative, and ends with the changelog URL. */
  lemma DeprecatedMessageOrder(e: string, alt: string)
    ensures var m := DeprecatedEndpointError(e, alt).Message();
            && IsPrefix("The " + e, m)
            && OccursAt(m, Suggestion(alt), |DeprecationNotice(e)|)
            && m[|m| - |ChangelogUrl|..] == ChangelogUrl
  {
    var notice := DeprecationNotice(e);
    var m := DeprecatedEndpointError(e, alt).Message();
    PartsOfConcat(notice, Suggestion(alt), MoreInformation);
    PartsOfConcat("The " + e, " endpoint has been deprecated and removed. ", []);
    assert notice == "The " + e + " endpoint has been deprecated and removed. " + [];
    assert m[..|"The " + e|] == notice[..|"The " + e|];
    PartsOfConcat("For more information, visit: ", ChangelogUrl, []);
    assert m[|m| - |ChangelogUrl|..] == MoreInformation[|MoreInformation| - |ChangelogUrl|..];
  }
}
