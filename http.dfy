/** The vocabulary shared by every handler: optional values, handler outcomes,
    status codes, the claims a session token carries, the two roles the
    handlers test for, and the errors the record store raises. */
module Http {

  datatype Option<+T> = None | Some(value: T)

  /** What a handler sends back: a status code with a payload, or a status
      code with the text of an error message. */
  datatype Outcome<+T> = Ok(status: int, value: T) | Fail(status: int, message: string)

  const OK: int := 200
  const CREATED: int := 201
  const BAD_REQUEST: int := 400
  const UNAUTHORIZED: int := 401
  const FORBIDDEN: int := 403
  const NOT_FOUND: int := 404
  const INTERNAL_ERROR: int := 500

  /** The body of a 500 reply that forwards the store's error object as it is;
      the object's contents are not modelled. */
  const STORE_ERROR_BODY: string := ""

  const ADMINISTRATOR: string := "administrador"
  const YOUTH_DIRECTOR: string := "diretorjovem"

  const ACCESS_DENIED: string := "Acesso negado"
  const CPF_TAKEN: string := "CPF já cadastrado"

  type UserId = int

  /** A point in time, in seconds since the epoch. */
  type Instant = int

  /** Lifetime of a session token: `expiresIn: '1h'`. */
  const TOKEN_LIFETIME: int := 3600

  /** The decoded payload of a session token: what login signs, plus the
      issued-at and expiry times the token library adds. */
  datatype Claims = Claims(id: UserId, email: string, role: string, iat: Instant, exp: Instant)

  /** The errors the record store raises: a malformed object id (P2023), an
      update or delete of a record that does not exist (P2025), and a write
      that would break a uniqueness constraint (P2002). */
  datatype StoreError = MalformedId | RecordNotFound | UniqueViolation
}
