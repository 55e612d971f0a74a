/**
 * The login form: the name check that runs before any request, the error
 * message it leaves and the loading flag around the login request. The
 * submit handler is split at its `await`: `Submit` runs up to the request,
 * `FinishLogin` runs when it has settled (its `finally` included).
 */
module Login {
  import opened Wrappers
  import opened Strings

  const EnterName: string := "Please enter your name"
  const NameTooShort: string := "Name must be at least 2 characters long"
  const LoginFailed: string := "Failed to login. Please try again."

  /**
   * The message the name check leaves, checked in the handler's order; `None`
   * when it passes. The length is `trim().length`, counted in UTF-16 code units.
   */
  function UsernameError(username: string): (r: Option<string>)
    ensures r == Some(EnterName) <==> AllWhitespace(username)
    ensures r == Some(NameTooShort) <==> !AllWhitespace(username) && Utf16Length(Trim(username)) < 2
    ensures r == None <==> Utf16Length(Trim(username)) >= 2
  {
    assert EnterName != NameTooShort by {
      assert |EnterName| != |NameTooShort|;
    }
    var t := Trim(username);
    if t == [] then Some(EnterName)
    else if Utf16Length(t) < 2 then Some(NameTooShort)
    else None
  }

  /** A single non-blank character of the Basic Multilingual Plane is too short. */
  lemma SingleCharacterTooShort(c: char)
    requires !IsWhitespace(c) && c as int < 0x1_0000
    ensures UsernameError([c]) == Some(NameTooShort)
  {
    assert [c][0] == c;
    Utf16LengthBmp(Trim([c]));
  }

  /** A single character outside the Basic Multilingual Plane is two code units long, and passes. */
  lemma AstralCharacterAccepted(c: char)
    requires c as int >= 0x1_0000
    ensures UsernameError([c]) == None
  {
    assert [c][0] == c;
    NoWhitespaceTrim([c]);
  }

  /** Two non-blank characters, with anything between them, make a long enough name. */
  lemma NonBlankEndsAccepted(s: string)
    requires |s| >= 2 && !IsWhitespace(s[0]) && !IsWhitespace(s[|s| - 1])
    ensures UsernameError(s) == None
  {
    NoWhitespaceTrim(s);
  }

  class LoginForm {
    var username: string
    var error: string
    var isLoading: bool

    constructor ()
      ensures username == "" && error == "" && !isLoading
    {
      username := "";
      error := "";
      isLoading := false;
    }

    /** The name input's change handler. */
    method SetUsername(value: string)
      modifies this`username
      ensures username == value
    {
      username := value;
    }

    /**
     * Submit up to the login request. The error is cleared first; a failed
     * check leaves its message and sends nothing, leaving the loading flag as
     * it was; otherwise the flag rises and the name is sent as typed, untrimmed.
     */
    method Submit() returns (request: Option<string>)
      modifies this`error, this`isLoading
      ensures UsernameError(username).Some? ==>
        request == None && error == UsernameError(username).value && isLoading == old(isLoading)
      ensures UsernameError(username).None? ==> request == Some(username) && error == "" && isLoading
    {
      error := "";
      var check := UsernameError(username);
      if check.Some? {
        error := check.value;
        return None;
      }
      isLoading := true;
      request := Some(username);
    }

    /** The login request settled; the loading flag drops either way. */
    method FinishLogin(succeeded: bool)
      modifies this`error, this`isLoading
      ensures !isLoading
      ensures succeeded ==> error == old(error)
      ensures !succeeded ==> error == LoginFailed
    {
      if !succeeded {
        error := LoginFailed;
      }
      isLoading := false;
    }
  }
}
