/** The password-reset action of src/app/auth/update-password/actions.ts:
    `PasswordSchema` and `updatePassword`. */
module UpdatePasswordActions {
  import opened Js
  import opened Schemas

  const ConfirmLengthMessage := "確認用パスワードは6文字以上で入力してください"
  const MismatchMessage := "パスワードが一致しません"
  const UpdateFailedMessage := "パスワードの更新に失敗しました"

  /** `PasswordSchema`: both fields strings of at least six characters, then the
      refinement that they are equal. zod runs the refinement after length
      issues too, but not when a field is not a string at all. */
  function PasswordIssues(password: Value, confirm: Value): seq<Issue>
  {
    var noEmail := (s: string) => false;
    var fields := StringField(password, [MinLength(6, PasswordLengthMessage)], noEmail) +
                  StringField(confirm, [MinLength(6, ConfirmLengthMessage)], noEmail);
    if password.Str? && confirm.Str? && password.s != confirm.s then fields + [Custom(MismatchMessage)]
    else fields
  }

  /** The schema accepts exactly two equal strings of at least six characters. */
  lemma PasswordAccepts(password: Value, confirm: Value)
    ensures PasswordIssues(password, confirm) == [] <==>
              password.Str? && confirm.Str? && |password.s| >= 6 && password == confirm
  {
    var noEmail := (s: string) => false;
    if password.Str? {
      assert Passes(password.s, MinLength(6, PasswordLengthMessage), noEmail) <==> |password.s| >= 6;
    }
    if confirm.Str? {
      assert Passes(confirm.s, MinLength(6, ConfirmLengthMessage), noEmail) <==> |confirm.s| >= 6;
    }
  }

  /** The reported message: a short password is reported first, then a short
      confirmation, and only then a mismatch. */
  lemma PasswordFirstMessage(password: string, confirm: string)
    ensures |password| < 6 ==> FirstMessage(PasswordIssues(Str(password), Str(confirm))) == Some(PasswordLengthMessage)
    ensures |password| >= 6 && |confirm| < 6 ==>
              FirstMessage(PasswordIssues(Str(password), Str(confirm))) == Some(ConfirmLengthMessage)
    ensures |password| >= 6 && |confirm| >= 6 && password != confirm ==>
              FirstMessage(PasswordIssues(Str(password), Str(confirm))) == Some(MismatchMessage)
  {
    var noEmail := (s: string) => false;
    assert Passes(password, MinLength(6, PasswordLengthMessage), noEmail) <==> |password| >= 6;
    assert Passes(confirm, MinLength(6, ConfirmLengthMessage), noEmail) <==> |confirm| >= 6;
  }

  /** Whether `supabase.auth.updateUser` reported an error. */
  datatype UpdateUserResult = Updated | UpdateError

  /** `updatePassword`: validate, then update the user's password; a provider error
      is replaced by a fixed message and success ends in a redirect to "/".
      `updatedWith` is the password handed to `updateUser`, None when it is not called. */
  method UpdatePassword(form: FormData, updateUser: UpdateUserResult) returns (out: Outcome<()>, updatedWith: Option<string>)
    ensures var issues := PasswordIssues(FormValueOf(form, "password"), FormValueOf(form, "confirmPassword"));
            if issues != [] then
              out == Error(Message(issues[0])) && updatedWith == None
            else
              updatedWith == Some(FormValueOf(form, "password").s) &&
              out == (if updateUser == Updated then Redirect("/") else Error(UpdateFailedMessage))
  {
    var password := FormValueOf(form, "password");
    var confirm := FormValueOf(form, "confirmPassword");
    var issues := PasswordIssues(password, confirm);
    if issues != [] {
      return Error(Message(issues[0])), None;
    }
    PasswordAccepts(password, confirm);
    updatedWith := Some(password.s);
    if updateUser == UpdateError {
      return Error(UpdateFailedMessage), updatedWith;
    }
    out := Redirect("/");
  }

  /** A password reaches the provider only as a string of at least six characters. */
  lemma UpdatePasswordMessages(form: FormData)
    ensures var issues := PasswordIssues(FormValueOf(form, "password"), FormValueOf(form, "confirmPassword"));
            issues == [] ==> FormValueOf(form, "password").Str? && |FormValueOf(form, "password").s| >= 6
  {
    PasswordAccepts(FormValueOf(form, "password"), FormValueOf(form, "confirmPassword"));
  }
}
