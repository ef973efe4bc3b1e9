/** Values shared by every part of the API model. */
module Common {

  datatype Option<+T> = None | Some(value: T) {
    function GetOr(default: T): T {
      match this
      case Some(v) => v
      case None => default
    }
  }

  datatype Result<+T, +E> = Ok(value: T) | Err(error: E)

  /** The closed set of roles a user row can hold. */
  datatype Role = Admin | User {
    function Name(): string {
      match this
      case Admin => "admin"
      case User => "user"
    }
  }

  /** The role spelled `s`, if `s` is one of the two role names. */
  function RoleNamed(s: string): (r: Option<Role>)
    ensures r.Some? ==> r.value.Name() == s
    ensures forall x: Role :: x.Name() == s ==> r == Some(x)
  {
    if s == "admin" then Some(Admin)
    else if s == "user" then Some(User)
    else None
  }

  /**
   * An error object as it reaches `next(error)`: a driver error code
   * (`err.code`, absent for a plain `Error`) and its message text.
   */
  datatype Fault = Fault(code: Option<string>, message: string)
}
