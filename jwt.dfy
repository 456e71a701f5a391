/**
 * The interface of the token library (JSON Web Tokens, RFC 7519). Signing and
 * verification are foreign calls: the model receives them as function-typed
 * parameters and only sees whether they returned or threw.
 */
module Jwt {
  import opened Common

  /** The payload `{ id: user._id }` that login signs. */
  datatype Payload = Payload(id: UserId)

  /** The decoded payload of a verified token: subject, issued-at and expiry. */
  datatype Claims = Claims(id: UserId, iat: int, exp: int)

  /** `jwt.verify` either returns the decoded claims or throws an error with a message. */
  datatype VerifyResult = Decoded(claims: Claims) | VerifyThrew(message: string)

  /** `jwt.sign` either returns a token or throws an error with a message. */
  datatype SignResult = Signed(token: string) | SignThrew(message: string)

  /** `jwt.verify(token, secret)`. */
  type Verifier = (string, string) -> VerifyResult

  /** `jwt.sign(payload, secret, { expiresIn: ttl })`. */
  type Signer = (Payload, string, string) -> SignResult
}
