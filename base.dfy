/** Shared vocabulary of the model: Go byte strings, timestamps, and the
    sentinel error values and error-returning shapes the Go packages use. */
module Base {

  /** One byte of a Go string. A `char` below 256 stands for that byte. */
  type Byte = c: char | c as int < 256 witness '0'

  /** A Go `string`: an immutable sequence of bytes. */
  type GoString = seq<Byte>

  /** An RFC 3339 timestamp, kept opaque: the clock is a parameter of every
      operation that reads it. */
  type Timestamp = GoString

  datatype Option<+T> = None | Some(value: T)

  /** Go's `m[k]`: the stored value, or the type's zero value `zero` when
      the key is absent. */
  function MapGet<K, V>(m: map<K, V>, k: K, zero: V): V
  {
    if k in m then m[k] else zero
  }

  /** The sentinel errors of the Go packages, one constructor per value. */
  datatype Error =
    | UsernameIsTaken          // storage, database, auth: login already registered
    | WrongCredentials         // storage: wrong login/password
    | WrongPassword            // database, auth: wrong password
    | UserNotFound             // database, auth: GetPass on an unknown login
    | OrderLoadedThisUser      // orders: number already claimed by the caller
    | OrderLoadedAnotherUser   // orders: number already claimed by someone else
    | NoOrders                 // orders: the user has no orders
    | InsufficientFunds        // balance: withdrawal larger than the balance
    | WrongOrder               // balance: withdrawal order fails the Luhn check
    | TooManyReqs              // accrualworker: HTTP 429 from the accrual service
    | NoNewOrders              // accrualworker: storage reported no rows
    | UnexpectedResponse       // accrualworker: any other HTTP status code
    | Transport                // accrualworker: request could not be built or sent
    | ReadBody                 // accrualworker: body of a 200 response could not be read
    | UnexpectedStatus         // database: accrual status outside the known five
    | NoRows                   // database/sql: a QueryRow found no row
    | ConstraintViolation      // PostgreSQL: a key, foreign key or NOT NULL check failed
    | Driver(code: nat)        // any other error the SQL driver returns

  /** A Go `error` result: `Pass` is nil. */
  datatype Outcome = Pass | Fail(error: Error)

  /** A Go `(T, error)` result where the value is meaningless on error. */
  datatype Result<+T> = Ok(value: T) | Err(error: Error)
}
