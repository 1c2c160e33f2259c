/**
 * The browser's API client (frontend/lib/axios.ts): the default headers
 * every request carries, the global error handler, and the response
 * interceptor that runs it. The handler's effects (toasts, the logout event)
 * are returned as a list of actions in the order they happen.
 */
module Axios {
  import opened Wrappers
  import opened Types
  import opened Text
  import AuthMiddleware

  const Authorization := "Authorization"

  /** The headers after `setAuthToken(token)`. */
  function HeadersWithToken(common: map<string, string>, token: Option<string>): (r: map<string, string>)
    ensures Truthy(token) ==> Authorization in r && r[Authorization] == AuthMiddleware.Scheme + token.value
    ensures !Truthy(token) ==> Authorization !in r
    ensures forall key :: key != Authorization ==> (key in r <==> key in common)
    ensures forall key :: key != Authorization && key in r ==> r[key] == common[key]
  {
    if Truthy(token) then common[Authorization := AuthMiddleware.Scheme + token.value]
    else common - {Authorization}
  }

  /**
   * The header installed for a token is one the server's `authenticate`
   * reads that same token back from.
   */
  lemma InstalledHeaderCarriesToken(common: map<string, string>, token: string)
    requires token != ""
    ensures AuthMiddleware.BearerToken(Some(HeadersWithToken(common, Some(token))[Authorization])) == Some(token)
  {
    AuthMiddleware.BearerRoundTrip(token);
  }

  /** The axios instance, as far as its default headers go. */
  class Client {
    var common: map<string, string>

    constructor ()
      ensures common == map[]
    {
      common := map[];
    }

    /** `setAuthToken(token)`: a token (not empty) installs the bearer header; otherwise it is removed. */
    method SetAuthToken(token: Option<string>)
      modifies this
      ensures common == HeadersWithToken(old(common), token)
    {
      if Truthy(token) {
        common := common[Authorization := AuthMiddleware.Scheme + token.value];
      } else {
        common := common - {Authorization};
      }
    }
  }

  /** What reaches the error handler: a non-axios error, or an axios error and what it carries. */
  datatype ClientError =
    | OtherError
    | AxiosError(status: Option<int>, data: Option<ApiError>, message: Option<string>)

  /** The handler's effects: a toast, or the `auth:logout` window event. */
  datatype UiAction = Toast(text: string) | DispatchLogout

  const GenericFailure := "Something went wrong"
  const SessionExpired := "Session expired. Please sign in again."

  /** `data?.error ?? data?.message ?? axErr.message ?? 'Request failed'` */
  function ChosenMessage(data: Option<ApiError>, message: Option<string>): (r: string)
    ensures data.Some? && data.value.error.Some? ==> r == data.value.error.value
    ensures (data.None? || data.value.error.None?) && data.Some? && data.value.message.Some? ==> r == data.value.message.value
    ensures (data.None? || (data.value.error.None? && data.value.message.None?)) ==> r == message.GetOr("Request failed")
  {
    var fromBody := if data.Some? then data.value.error.OrElse(data.value.message) else None;
    fromBody.OrElse(message).GetOr("Request failed")
  }

  /**
   * `handleApiError(err)`: a non-axios error gets the generic toast; a 401
   * signs out (the event only where a window exists) and says so, before
   * and instead of anything the body says; otherwise the first validation
   * error's text, or the chosen message.
   */
  function HandleApiError(err: ClientError, inBrowser: bool): (r: seq<UiAction>)
    ensures 1 <= |r| <= 2 && r[|r| - 1].Toast?
    ensures forall i :: 0 <= i < |r| - 1 ==> !r[i].Toast?
    ensures err.OtherError? ==> r == [Toast(GenericFailure)]
    ensures DispatchLogout in r <==> err.AxiosError? && err.status == Some(401) && inBrowser
    ensures err.AxiosError? && err.status == Some(401) ==> r[|r| - 1] == Toast(SessionExpired)
    ensures err.AxiosError? && err.status != Some(401) ==> |r| == 1
    ensures err.AxiosError? && err.status != Some(401) && err.data.Some? && err.data.value.errors.Some?
            && err.data.value.errors.value != [] ==>
      r == [Toast(err.data.value.errors.value[0].msg.GetOr(ChosenMessage(err.data, err.message)))]
    ensures err.AxiosError? && err.status != Some(401)
            && (err.data.None? || err.data.value.errors.None? || err.data.value.errors.value == []) ==>
      r == [Toast(ChosenMessage(err.data, err.message))]
  {
    match err
    case OtherError => [Toast(GenericFailure)]
    case AxiosError(status, data, message) =>
      var chosen := ChosenMessage(data, message);
      if status == Some(401) then
        (if inBrowser then [DispatchLogout] else []) + [Toast(SessionExpired)]
      else if data.Some? && data.value.errors.Some? && data.value.errors.value != [] then
        [Toast(data.value.errors.value[0].msg.GetOr(chosen))]
      else
        [Toast(chosen)]
  }

  /** On a 401 nothing in the body or the message changes what the user sees. */
  lemma UnauthorizedIgnoresBody(data1: Option<ApiError>, message1: Option<string>,
                                data2: Option<ApiError>, message2: Option<string>, inBrowser: bool)
    ensures HandleApiError(AxiosError(Some(401), data1, message1), inBrowser)
         == HandleApiError(AxiosError(Some(401), data2, message2), inBrowser)
  {
  }

  /** A response as the caller of the client sees it. */
  datatype Outcome<T> = Resolved(value: T) | Failed(error: ClientError)

  /**
   * The response interceptor: a success passes through untouched with no
   * effect; an error is handled and then rejected again, unchanged, so the
   * caller still sees it.
   */
  function Intercept<T>(outcome: Outcome<T>, inBrowser: bool): (r: (Outcome<T>, seq<UiAction>))
    ensures r.0 == outcome
    ensures outcome.Resolved? ==> r.1 == []
    ensures outcome.Failed? ==> r.1 == HandleApiError(outcome.error, inBrowser) && r.1 != []
  {
    match outcome
    case Resolved(_) => (outcome, [])
    case Failed(error) => (outcome, HandleApiError(error, inBrowser))
  }
}
