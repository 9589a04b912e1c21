/** `checkSecret`: the guard in front of both HTTP handlers. */
module Auth {

  const StatusUnauthorized := 401
  const MissingEnvMessage := "missing env SEQREDEPLOY_SECRET"
  const BadSecretMessage := "bad secret"

  /** An error response, or the request handed on to the wrapped handler. */
  datatype Reply = Rejected(status: int, message: string) | Forwarded

  /** `expectedSecret` is the value of `SEQREDEPLOY_SECRET` ("" when unset);
      `secretParams` are the request's `secret` query values, of which the
      source reads the first. */
  function CheckSecret(expectedSecret: string, secretParams: seq<string>): (r: Reply)
    requires |secretParams| > 0
    ensures r.Forwarded? <==> expectedSecret != "" && secretParams[0] == expectedSecret
    ensures r.Rejected? ==> r.status == StatusUnauthorized
    ensures expectedSecret == "" ==> r.Rejected? && r.message == MissingEnvMessage
    ensures expectedSecret != "" && secretParams[0] != expectedSecret ==>
      r.Rejected? && r.message == BadSecretMessage
  {
    var secret := secretParams[0];
    if expectedSecret == "" then Rejected(StatusUnauthorized, MissingEnvMessage)
    else if expectedSecret != secret then Rejected(StatusUnauthorized, BadSecretMessage)
    else Forwarded
  }
}
