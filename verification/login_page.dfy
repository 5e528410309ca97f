/** The sign-in form: a local nickname check, the sign-in request, and the session it yields. */
module LoginPage {
  import opened Wrappers
  import opened ApiClient
  import opened Entities
  import opened PageCommon
  import opened JsText

  /** `MIN_NICKNAME_LENGTH` */
  const MinNicknameLength := 2
  const NicknameTooShort := "닉네임은 2자 이상이어야 합니다."
  const LoginFallback := "로그인에 실패했습니다."

  /** The local check: the trimmed nickname must have at least two characters; it is what gets sent. */
  function ValidateNickname(nickname: string): (r: Result<string, string>)
    ensures r.Success? <==> |Trim(nickname)| >= MinNicknameLength
    ensures r.Failure? ==> r.error == NicknameTooShort
    ensures r.Success? ==> r.value == Trim(nickname) && IsTrimmed(r.value) && |r.value| >= MinNicknameLength
  {
    if |Trim(nickname)| < MinNicknameLength then Failure(NicknameTooShort) else Success(Trim(nickname))
  }

  /**
   * The message of a failed sign-in: for an ApiError, the `nickname` field
   * error when there is one, else its message; for another Error, its
   * message; for anything else, the fixed fallback.
   */
  function LoginErrorMessage(thrown: Thrown): (message: string)
    ensures thrown.ApiFailure? && thrown.error.errors.Some? && "nickname" in thrown.error.errors.value ==>
              message == thrown.error.errors.value["nickname"]
    ensures !(thrown.ApiFailure? && thrown.error.errors.Some? && "nickname" in thrown.error.errors.value) ==>
              message == CaughtMessage(thrown, LoginFallback)
  {
    match thrown
    case ApiFailure(error) =>
      if error.errors.Some? && "nickname" in error.errors.value then error.errors.value["nickname"] else error.message
    case PlainError(message) => message
    case NonErrorValue => LoginFallback
  }

  class LoginView {
    var nickname: string
    var loading: bool
    var errorMessage: Option<string>

    constructor ()
      ensures nickname == "" && !loading && errorMessage == None
    {
      nickname := "";
      loading := false;
      errorMessage := None;
    }

    /**
     * `handleSubmit` up to its await: the error is cleared first; a short
     * nickname shows its message and sends nothing; otherwise `loading` goes
     * on and the trimmed nickname is sent.
     */
    method Submit() returns (request: Option<Request>)
      modifies this
      ensures var check := ValidateNickname(old(nickname));
              && (check.Failure? ==> request == None && errorMessage == Some(NicknameTooShort) && loading == old(loading))
              && (check.Success? ==> request == Some(SignIn(Trim(old(nickname)))) && errorMessage == None && loading)
      ensures nickname == old(nickname)
    {
      errorMessage := None;
      var check := ValidateNickname(nickname);
      if check.Failure? {
        errorMessage := Some(check.error);
        return None;
      }
      loading := true;
      request := Some(SignIn(check.value));
    }

    /**
     * The sign-in settled for the request `sent`: success hands `onSuccess` a
     * session with the server's id and the nickname that was sent; failure
     * shows the chosen message; `loading` ends either way.
     */
    method SubmitReplied(sent: Request, reply: Reply<SignInResponse>) returns (session: Option<Session>)
      requires sent.SignIn?
      modifies this
      ensures !loading && nickname == old(nickname)
      ensures reply.Resolved? ==> session == Some(Session(reply.value.id, sent.nickname)) && errorMessage == old(errorMessage)
      ensures reply.Rejected? ==> session == None && errorMessage == Some(LoginErrorMessage(reply.thrown))
    {
      match reply {
        case Resolved(response) =>
          session := Some(Session(response.id, sent.nickname));
        case Rejected(thrown) =>
          errorMessage := Some(LoginErrorMessage(thrown));
          session := None;
      }
      loading := false;
    }
  }
}
