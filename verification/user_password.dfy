/**
 * The password check on a user request (`user_validate_password`): the
 * request must carry `password` and `password_confirm` together, their
 * hashes must agree, and then both are replaced in place by
 * `password_hash`.
 *
 * The salted hash is an opaque function of the salt and the value.
 */
module UserPassword {
  import opened Wrappers
  import opened Values
  import opened Validation

  /** One entry of the error list: the message and the JSON path it is about. */
  datatype ErrorDetail = ErrorDetail(message: string, path: string)

  const ConfirmMissing := "expected properties `password` and `password_confirm`, `password_confirm` missing"
  const PasswordMissing := "expected properties `password` and `password_confirm`, `password` missing"
  const Mismatch := "expected `password` to match `password_confirm`"

  /** The error raised with `message`, naming `path` in its one detail. */
  function Invalid(message: string, path: string): InvalidDataError<ErrorDetail>
  {
    InvalidDataError(message, [ErrorDetail(message, path)])
  }

  /** The request after a successful check: the hash instead of the two passwords. */
  function WithHash(data: map<string, Value>, passwordHash: string): (r: map<string, Value>)
    ensures r.Keys == data.Keys - {"password", "password_confirm"} + {"password_hash"}
    ensures r["password_hash"] == VStr(passwordHash)
    ensures forall k :: k in data && k !in {"password", "password_confirm", "password_hash"} ==> r[k] == data[k]
  {
    (data - {"password", "password_confirm"})["password_hash" := VStr(passwordHash)]
  }

  /** What `user_validate_password` does to the request: its new contents, or the error it raises. */
  function PasswordChecked(salt: string, data: map<string, Value>, hash: (string, Value) -> string)
    : (r: Result<map<string, Value>, InvalidDataError<ErrorDetail>>)
    ensures r.Failure? ==> |r.error.errors| == 1 && r.error.errors[0].message == r.error.message
    ensures r.Success? ==> "password" !in r.value && "password_confirm" !in r.value
  {
    if "password" in data && "password_confirm" !in data then
      Failure(Invalid(ConfirmMissing, "$.password_confirm"))
    else if "password_confirm" in data && "password" !in data then
      Failure(Invalid(PasswordMissing, "$.password"))
    else if "password" in data then
      if hash(salt, data["password_confirm"]) != hash(salt, data["password"]) then
        Failure(Invalid(Mismatch, "$.password_confirm"))
      else
        Success(WithHash(data, hash(salt, data["password"])))
    else
      Success(data)
  }

  /**
   * `user_validate_password(salt, data)`: raises with `data` untouched, or
   * rewrites `data` in place.
   */
  method UserValidatePassword(salt: string, data: Dict, hash: (string, Value) -> string)
    returns (r: Outcome<InvalidDataError<ErrorDetail>>)
    modifies data
    ensures PasswordChecked(salt, old(data.items), hash).Failure? ==>
      r == Fail(PasswordChecked(salt, old(data.items), hash).error) && data.items == old(data.items)
    ensures PasswordChecked(salt, old(data.items), hash).Success? ==>
      r == Pass && data.items == PasswordChecked(salt, old(data.items), hash).value
  {
    if "password" in data.items && "password_confirm" !in data.items {
      return Fail(Invalid(ConfirmMissing, "$.password_confirm"));
    }
    if "password_confirm" in data.items && "password" !in data.items {
      return Fail(Invalid(PasswordMissing, "$.password"));
    }
    if "password" in data.items {
      var confirmHash := hash(salt, data.items["password_confirm"]);
      var passwordHash := hash(salt, data.items["password"]);
      if confirmHash != passwordHash {
        return Fail(Invalid(Mismatch, "$.password_confirm"));
      }
      data.Pop("password");
      data.Pop("password_confirm");
      data.Set("password_hash", VStr(passwordHash));
    }
    r := Pass;
  }

  /**
   * The check passes exactly when the request carries both passwords or
   * neither, and, when both, their hashes agree.
   */
  lemma PasswordAccepted(salt: string, data: map<string, Value>, hash: (string, Value) -> string)
    ensures PasswordChecked(salt, data, hash).Success? <==>
      && (("password" in data) <==> ("password_confirm" in data))
      && ("password" in data ==> hash(salt, data["password_confirm"]) == hash(salt, data["password"]))
  {
  }

  /**
   * A rejected request gets one error detail repeating the message; its path
   * is `$.password` exactly when `password` is the missing one, and
   * `$.password_confirm` otherwise.
   */
  lemma PasswordErrors(salt: string, data: map<string, Value>, hash: (string, Value) -> string)
    requires PasswordChecked(salt, data, hash).Failure?
    ensures var e := PasswordChecked(salt, data, hash).error;
      && |e.errors| == 1 && e.errors[0].message == e.message
      && (e.errors[0].path == "$.password" <==> "password" !in data)
      && (e.errors[0].path != "$.password" ==> e.errors[0].path == "$.password_confirm")
  {
  }

  /**
   * An accepted request no longer carries either password; it carries
   * `password_hash` (the hash of `password`) when it carried a password,
   * and otherwise is exactly what it was.
   */
  lemma PasswordStored(salt: string, data: map<string, Value>, hash: (string, Value) -> string)
    requires PasswordChecked(salt, data, hash).Success?
    ensures var d := PasswordChecked(salt, data, hash).value;
      && "password" !in d && "password_confirm" !in d
      && ("password" in data ==> d["password_hash"] == VStr(hash(salt, data["password"])))
      && ("password" !in data ==> d == data)
      && forall k :: k in data && k !in {"password", "password_confirm", "password_hash"} ==> k in d && d[k] == data[k]
  {
  }

  /** Checking an accepted request again changes nothing: it carries no password any more. */
  lemma PasswordCheckIdempotent(salt: string, data: map<string, Value>, hash: (string, Value) -> string)
    requires PasswordChecked(salt, data, hash).Success?
    ensures var d := PasswordChecked(salt, data, hash).value;
      PasswordChecked(salt, d, hash) == Success(d)
  {
  }
}
