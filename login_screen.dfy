/**
 * The login form: a role choice, a name field and an error line. Submitting
 * checks the role first and then the name, and hands the role and the name,
 * untrimmed, to the app.
 */
module LoginScreen {
  import opened Wrappers
  import opened Types
  import opened Strings

  const RoleError: string := "Please select a role"
  const NameError: string := "Please enter your name"

  /** The ordered checks of `handleSubmit`: the login to perform, or the message to show. */
  function Validate(role: Option<UserRole>, name: string): Result<(UserRole, string), string>
  {
    if role.None? then Failure(RoleError)
    else if |Trim(name)| == 0 then Failure(NameError)
    else Success((role.value, name))
  }

  /**
   * No role: the role message, whatever the name. A role and a name of white
   * space only: the name message. Otherwise the login goes ahead with the
   * chosen role and the name as typed.
   */
  lemma {:induction false} ValidateMeaning(role: Option<UserRole>, name: string)
    ensures role.None? ==> Validate(role, name) == Failure(RoleError)
    ensures role.Some? ==> (Validate(role, name) == Failure(NameError) <==> AllWhitespace(name))
    ensures Validate(role, name).Success? <==> role.Some? && !AllWhitespace(name)
    ensures Validate(role, name).Success? ==> Validate(role, name).value == (role.value, name)
  {
    BlankIffAllWhitespace(name);
    assert RoleError != NameError by {
      assert |RoleError| != |NameError|;
    }
  }

  class LoginForm {
    var role: Option<UserRole>
    var name: string
    /** The error line; the empty string shows nothing. */
    var error: string

    /** Nothing chosen, nothing typed, no error. */
    constructor ()
      ensures role.None? && name == "" && error == ""
    {
      role := None;
      name := "";
      error := "";
    }

    /** `handleSubmit`: either shows a message and logs nobody in, or logs in with the role and the name. */
    method HandleSubmit() returns (login: Option<(UserRole, string)>)
      modifies this
      ensures role == old(role) && name == old(name)
      ensures Validate(role, name).Failure? ==> login.None? && error == Validate(role, name).error
      ensures Validate(role, name).Success? ==> login == Some(Validate(role, name).value) && error == old(error)
    {
      if role.None? {
        error := RoleError;
        return None;
      }
      if |Trim(name)| == 0 {
        error := NameError;
        return None;
      }
      login := Some((role.value, name));
    }

    /** Either role button: selects that role and clears the error. */
    method SelectRole(r: UserRole)
      modifies this
      ensures role == Some(r) && error == "" && name == old(name)
    {
      role := Some(r);
      error := "";
    }

    /** Typing in the name field: sets the name and clears the error. */
    method EditName(value: string)
      modifies this
      ensures name == value && error == "" && role == old(role)
    {
      name := value;
      error := "";
    }
  }
}
