/** The account endpoints' required-field and one-time-password logic
    (core/users/views.py): e-mail verification, password reset, OTP
    resend and login. Each request field is read as an optional string;
    `Present` is Python's truthiness of it. JWT issuing, e-mail sending and
    Django's password validators and `authenticate` are outside the model:
    the last two are parameters. */
module UserViews {
  import opened Common
  import opened UserModels

  const HTTP_200_OK := 200
  const HTTP_400_BAD_REQUEST := 400
  const HTTP_401_UNAUTHORIZED := 401
  const HTTP_404_NOT_FOUND := 404

  // ---------------------------------------------------------------------
  // VerifyOtpView.post

  /** Status and table after a verification request. */
  function VerifyOtp(users: map<string, User>, email: Option<string>, otp: Option<string>)
    : (out: (int, map<string, User>))
    ensures !Present(email) || !Present(otp) ==> out == (HTTP_400_BAD_REQUEST, users)
    ensures out.0 in {HTTP_200_OK, HTTP_400_BAD_REQUEST, HTTP_404_NOT_FOUND}
    ensures out.0 == HTTP_404_NOT_FOUND <==> Present(email) && Present(otp) && email.value !in users
    ensures out.0 == HTTP_200_OK <==>
      Present(email) && Present(otp) && email.value in users && users[email.value].otp == otp
    ensures out.0 == HTTP_200_OK ==>
      out.1 == users[email.value := users[email.value].(isEmailVerified := true, otp := None)]
    ensures out.0 != HTTP_200_OK ==> out.1 == users
  {
    if !Present(email) || !Present(otp) then (HTTP_400_BAD_REQUEST, users)
    else if email.value !in users then (HTTP_404_NOT_FOUND, users)
    else
      var user := users[email.value];
      if user.otp == otp then
        (HTTP_200_OK, users[email.value := user.(isEmailVerified := true, otp := None)])
      else (HTTP_400_BAD_REQUEST, users)
  }

  /** A code that verified an address cannot verify it again: the stored
      code is cleared, and a request code must be a non-empty string. */
  lemma VerifyOtpSingleUse(users: map<string, User>, email: Option<string>, otp: Option<string>, otp2: Option<string>)
    requires VerifyOtp(users, email, otp).0 == HTTP_200_OK
    ensures VerifyOtp(VerifyOtp(users, email, otp).1, email, otp2).0 == HTTP_400_BAD_REQUEST
  {
    var after := VerifyOtp(users, email, otp).1;
    assert after[email.value].otp == None;
  }

  /** Right after a successful verification, and until a new code is
      issued, no reset can succeed for that address, whatever code it
      carries. */
  lemma VerifiedCodeCannotReset(users: map<string, User>, email: Option<string>, otp: Option<string>,
                                otp2: Option<string>, password: Option<string>, passwordOk: string -> bool)
    requires VerifyOtp(users, email, otp).0 == HTTP_200_OK
    ensures ResetPassword(VerifyOtp(users, email, otp).1, email, otp2, password, passwordOk).0 != HTTP_200_OK
  {
    var after := VerifyOtp(users, email, otp).1;
    assert after[email.value].otp == None;
  }

  // ---------------------------------------------------------------------
  // ResetPasswordView.post

  /** Status and table after a reset request. `passwordOk` stands for
      Django's `validate_password`; both checks run before any lookup. */
  function ResetPassword(users: map<string, User>, email: Option<string>, otp: Option<string>,
                         password: Option<string>, passwordOk: string -> bool)
    : (out: (int, map<string, User>))
    ensures !Present(email) || !Present(otp) || !Present(password) ==> out == (HTTP_400_BAD_REQUEST, users)
    ensures Present(password) && !passwordOk(password.value) ==> out == (HTTP_400_BAD_REQUEST, users)
    ensures out.0 in {HTTP_200_OK, HTTP_400_BAD_REQUEST, HTTP_404_NOT_FOUND}
    ensures out.0 == HTTP_404_NOT_FOUND <==>
      Present(email) && Present(otp) && Present(password) && passwordOk(password.value) && email.value !in users
    ensures (Present(email) && Present(otp) && Present(password) && passwordOk(password.value)
             && email.value in users && users[email.value].otp != otp) ==> out == (HTTP_400_BAD_REQUEST, users)
    ensures out.0 == HTTP_200_OK <==>
      Present(email) && Present(otp) && Present(password) && passwordOk(password.value)
      && email.value in users && users[email.value].otp == otp
    ensures out.0 == HTTP_200_OK ==>
      out.1 == users[email.value := users[email.value].(password := Hashed(password.value), otp := None)]
    ensures out.0 != HTTP_200_OK ==> out.1 == users
  {
    if !Present(email) || !Present(otp) || !Present(password) then (HTTP_400_BAD_REQUEST, users)
    else if !passwordOk(password.value) then (HTTP_400_BAD_REQUEST, users)
    else if email.value !in users then (HTTP_404_NOT_FOUND, users)
    else
      var user := users[email.value];
      if user.otp == otp then
        (HTTP_200_OK, users[email.value := user.(password := Hashed(password.value), otp := None)])
      else (HTTP_400_BAD_REQUEST, users)
  }

  /** A code used for a reset cannot be used again, for a reset or for a
      verification. */
  lemma ResetCodeSingleUse(users: map<string, User>, email: Option<string>, otp: Option<string>,
                           password: Option<string>, passwordOk: string -> bool,
                           otp2: Option<string>, password2: Option<string>)
    requires ResetPassword(users, email, otp, password, passwordOk).0 == HTTP_200_OK
    ensures var after := ResetPassword(users, email, otp, password, passwordOk).1;
      && ResetPassword(after, email, otp2, password2, passwordOk).0 != HTTP_200_OK
      && VerifyOtp(after, email, otp2).0 != HTTP_200_OK
  {
    var after := ResetPassword(users, email, otp, password, passwordOk).1;
    assert after[email.value].otp == None;
  }

  // ---------------------------------------------------------------------
  // ResendOtpView.post and LoginView.post

  /** Status of a resend request and whether a code is mailed. What the
      mailer stores on the user is not part of this model, so the table is
      left as it is. */
  function ResendOtp(users: map<string, User>, email: Option<string>): (out: (int, bool))
    ensures out.1 <==> out.0 == HTTP_200_OK
    ensures out.0 == HTTP_200_OK <==> Present(email) && email.value in users && !users[email.value].isEmailVerified
    ensures Present(email) && email.value in users && users[email.value].isEmailVerified ==>
      out == (HTTP_400_BAD_REQUEST, false)
  {
    if !Present(email) then (HTTP_400_BAD_REQUEST, false)
    else if email.value !in users then (HTTP_404_NOT_FOUND, false)
    else if users[email.value].isEmailVerified then (HTTP_400_BAD_REQUEST, false)
    else (HTTP_200_OK, true)
  }

  /** Once an address is verified, no further code is mailed to it. */
  lemma NoResendAfterVerify(users: map<string, User>, email: Option<string>, otp: Option<string>)
    requires VerifyOtp(users, email, otp).0 == HTTP_200_OK
    ensures ResendOtp(VerifyOtp(users, email, otp).1, email) == (HTTP_400_BAD_REQUEST, false)
  {
    var after := VerifyOtp(users, email, otp).1;
    assert after[email.value].isEmailVerified;
  }

  /** Status of a login request; `authenticate` stands for Django's
      credential check. */
  function Login(email: Option<string>, password: Option<string>, authenticate: (string, string) -> bool): (status: int)
    ensures !Present(email) || !Present(password) ==> status == HTTP_400_BAD_REQUEST
    ensures status == HTTP_200_OK <==> Present(email) && Present(password) && authenticate(email.value, password.value)
    ensures status in {HTTP_200_OK, HTTP_400_BAD_REQUEST, HTTP_401_UNAUTHORIZED}
    ensures Present(email) && Present(password) && !authenticate(email.value, password.value) ==>
      status == HTTP_401_UNAUTHORIZED
  {
    if !Present(email) || !Present(password) then HTTP_400_BAD_REQUEST
    else if authenticate(email.value, password.value) then HTTP_200_OK
    else HTTP_401_UNAUTHORIZED
  }

  // ---------------------------------------------------------------------
  // The handlers, updating the table in place

  method VerifyOtpView(store: UserStore, email: Option<string>, otp: Option<string>) returns (status: int)
    requires store.Valid()
    modifies store
    ensures store.Valid()
    ensures (status, store.users) == VerifyOtp(old(store.users), email, otp)
  {
    if !Present(email) || !Present(otp) {
      return HTTP_400_BAD_REQUEST;
    }
    if email.value !in store.users {
      return HTTP_404_NOT_FOUND;
    }
    var user := store.users[email.value];
    if user.otp == otp {
      user := user.(isEmailVerified := true, otp := None);
      store.users := store.users[email.value := user];
      status := HTTP_200_OK;
    } else {
      status := HTTP_400_BAD_REQUEST;
    }
  }

  method ResetPasswordView(store: UserStore, email: Option<string>, otp: Option<string>,
                           password: Option<string>, passwordOk: string -> bool) returns (status: int)
    requires store.Valid()
    modifies store
    ensures store.Valid()
    ensures (status, store.users) == ResetPassword(old(store.users), email, otp, password, passwordOk)
  {
    if !Present(email) || !Present(otp) || !Present(password) {
      return HTTP_400_BAD_REQUEST;
    }
    if !passwordOk(password.value) {
      return HTTP_400_BAD_REQUEST;
    }
    if email.value !in store.users {
      return HTTP_404_NOT_FOUND;
    }
    var user := store.users[email.value];
    if user.otp == otp {
      user := user.(password := Hashed(password.value), otp := None);
      store.users := store.users[email.value := user];
      status := HTTP_200_OK;
    } else {
      status := HTTP_400_BAD_REQUEST;
    }
  }
}
