/** Results of the services and the errors they raise. */
module Results {

  datatype Option<+T> = None | Some(value: T)

  /** What a service call gives back: a value, or the error it raised. */
  datatype Result<+T> = Ok(value: T) | Err(error: Error)

  /** The errors raised by the services and the ORM calls they make. */
  datatype Error =
      /** A REST framework ValidationError holding one field and its message. */
    | ValidationError(field: string, message: string)
      /** The ORM's get() matched several rows; nothing in the core catches it. */
    | MultipleObjectsReturned
      /** A null expiry was compared with the current time. */
    | TypeError

  // The messages exactly as the services raise them, spelling included.
  const PasswordMismatch := ValidationError("password", "Password and confirm password do not match.")
  const PasswordTooShort := ValidationError("password", "Length must be greater than 8")
  const UsernameTaken := ValidationError("error", "user with this username already exits")
  const InvalidCode := ValidationError("unVerified", "Invalid or expired verification code")
  const NotVerified := ValidationError("unVerified", "please verify your profile")
  const NoSuchUsername := ValidationError("error", "user with this username does not exit")
  const NoSuchEmail := ValidationError("error", "user with this email does not exit")
  const NoProfile := ValidationError("error", "profile does not exit")
}
