/** The sign-in actions of src/app/login/actions.ts: the translation of provider
    errors into Japanese, `login` and the disabled `signup`. */
module LoginActions {
  import opened Js
  import opened Schemas

  const ErrorPrefix := "エラーが発生しました: "

  /** `translateAuthError`: the first known provider phrase found in the message
      decides the Japanese text; an unknown message is shown after a prefix. */
  function TranslateAuthError(message: string): string
  {
    if Includes(message, "Invalid login credentials") then "メールアドレスまたはパスワードが正しくありません"
    else if Includes(message, "User already registered") then "このメールアドレスは既に登録されています"
    else if Includes(message, "Password should be at least") then "パスワードは6文字以上である必要があります"
    else if Includes(message, "For security purposes, you can only request this once every") then
      "セキュリティのため、しばらく時間を置いてから再試行してください"
    else if Includes(message, "Email not confirmed") then "メールアドレスが認証されていません。受信トレイを確認してください"
    else ErrorPrefix + message
  }

  /** A provider phrase and the text that replaces it. */
  datatype Translation = Translation(phrase: string, text: string)

  /** The translations as a table, in the order they are tried. */
  const AuthErrorTable: seq<Translation> := [
    Translation("Invalid login credentials", "メールアドレスまたはパスワードが正しくありません"),
    Translation("User already registered", "このメールアドレスは既に登録されています"),
    Translation("Password should be at least", "パスワードは6文字以上である必要があります"),
    Translation("For security purposes, you can only request this once every",
                "セキュリティのため、しばらく時間を置いてから再試行してください"),
    Translation("Email not confirmed", "メールアドレスが認証されていません。受信トレイを確認してください")
  ]

  /** Reference definition: the text of the first row whose phrase occurs in the
      message, or the prefixed message when none does. */
  function FirstMatch(table: seq<Translation>, message: string): string
  {
    if table == [] then ErrorPrefix + message
    else if Includes(message, table[0].phrase) then table[0].text
    else FirstMatch(table[1..], message)
  }

  /** The chain of tests agrees with the table lookup on every message. */
  lemma {:induction false} TranslateIsFirstMatch(message: string)
    ensures TranslateAuthError(message) == FirstMatch(AuthErrorTable, message)
  {
    var t := AuthErrorTable;
    forall i | 0 <= i < |t|
      ensures FirstMatch(t[i..], message) ==
              if Includes(message, t[i].phrase) then t[i].text else FirstMatch(t[i + 1..], message)
    {
      assert t[i..][0] == t[i] && t[i..][1..] == t[i + 1..];
    }
    assert t[5..] == [];
  }

  /** The text chosen is the one of the first row whose phrase occurs, so a
      message holding several phrases is translated by the earliest row. */
  lemma {:induction false} FirstMatchPicksEarliest(table: seq<Translation>, message: string, k: nat)
    requires k < |table| && Includes(message, table[k].phrase)
    requires forall j :: 0 <= j < k ==> !Includes(message, table[j].phrase)
    ensures FirstMatch(table, message) == table[k].text
    decreases k
  {
    if k > 0 {
      assert !Includes(message, table[0].phrase);
      FirstMatchPicksEarliest(table[1..], message, k - 1);
    }
  }

  /** When no phrase occurs the message is shown in full after the prefix. */
  lemma {:induction false} FirstMatchFallback(table: seq<Translation>, message: string)
    requires forall j :: 0 <= j < |table| ==> !Includes(message, table[j].phrase)
    ensures FirstMatch(table, message) == ErrorPrefix + message
    decreases |table|
  {
    if table != [] {
      assert !Includes(message, table[0].phrase);
      FirstMatchFallback(table[1..], message);
    }
  }

  /** The lookup yields the prefixed message when no phrase occurs, and otherwise
      the text of a row whose phrase occurs. */
  lemma {:induction false} FirstMatchCases(table: seq<Translation>, message: string)
    ensures (forall j :: 0 <= j < |table| ==> !Includes(message, table[j].phrase)) ==>
              FirstMatch(table, message) == ErrorPrefix + message
    ensures (exists j :: 0 <= j < |table| && Includes(message, table[j].phrase)) ==>
              exists k :: 0 <= k < |table| && Includes(message, table[k].phrase) &&
                          FirstMatch(table, message) == table[k].text
    decreases |table|
  {
    if table != [] {
      FirstMatchCases(table[1..], message);
      if !Includes(message, table[0].phrase) {
        if exists j :: 0 <= j < |table| && Includes(message, table[j].phrase) {
          var j :| 0 <= j < |table| && Includes(message, table[j].phrase);
          assert table[1..][j - 1] == table[j];
          var k :| 0 <= k < |table[1..]| && Includes(message, table[1..][k].phrase) &&
                   FirstMatch(table[1..], message) == table[1..][k].text;
          assert table[k + 1] == table[1..][k];
        }
        if forall j :: 0 <= j < |table| ==> !Includes(message, table[j].phrase) {
          assert forall j :: 0 <= j < |table[1..]| ==> table[1..][j] == table[j + 1];
        }
      }
    }
  }

  /** A translated message carries the generic prefix exactly when none of the
      known phrases occurs in it. */
  lemma TranslatePrefixed(message: string)
    ensures StartsWith(TranslateAuthError(message), ErrorPrefix) <==>
              forall j :: 0 <= j < |AuthErrorTable| ==> !Includes(message, AuthErrorTable[j].phrase)
  {
    TranslateIsFirstMatch(message);
    FirstMatchCases(AuthErrorTable, message);
    forall j | 0 <= j < |AuthErrorTable|
      ensures !StartsWith(AuthErrorTable[j].text, ErrorPrefix)
    {
      assert AuthErrorTable[j].text[0] != ErrorPrefix[0];
    }
  }

  /** Severity of a structured log entry. */
  datatype Level = Info | Warn | Err

  /** What `login` does besides answering: log entries and cache revalidation. */
  datatype Effect =
    | Log(level: Level, actionType: string, details: map<string, Value>)
    | RevalidateLayout(path: string)

  /** How `signInWithPassword` went: accepted, rejected with the provider's message,
      or an exception (from the client or the call). */
  datatype SignInResult = SignedIn | Rejected(message: string) | SignInThrew

  const LoginFallbackMessage := "ログインエラー"
  const ServerErrorMessage := "サーバーエラーが発生しました"
  const SignupClosedMessage := "新規登録は招待制です。管理者にお問い合わせください。"

  /** The object `login` hands to `LoginSchema`. */
  function LoginInput(form: FormData): Value
  {
    Obj(map["email" := FormValueOf(form, "email"), "password" := FormValueOf(form, "password")])
  }

  /** `login`. The e-mail check and `encodeURIComponent` are parameters; the
      provider's answer is `signIn`. Every path ends in a redirect. */
  method Login(form: FormData, isEmail: string -> bool, encode: string -> string, signIn: SignInResult)
    returns (out: Outcome<()>, effects: seq<Effect>)
    ensures out.Redirect?
    ensures var issues := LoginIssues(LoginInput(form), isEmail);
            var email := Get(LoginInput(form).fields, "email");
            if issues != [] then
              var m := Message(issues[0]);
              out == Redirect("/login?error=" + encode(if m != "" then m else LoginFallbackMessage)) && effects == []
            else match signIn
              case Rejected(reason) =>
                out == Redirect("/login?error=" + encode(TranslateAuthError(reason))) &&
                effects == [Log(Warn, "LOGIN_FAILED", map["email" := email, "reason" := Str(reason)])]
              case SignInThrew =>
                out == Redirect("/login?error=" + encode(ServerErrorMessage)) &&
                effects == [Log(Err, "LOGIN_ERROR", map[])]
              case SignedIn =>
                out == Redirect("/") &&
                effects == [Log(Info, "LOGIN_SUCCESS", map["email" := email]), RevalidateLayout("/")]
  {
    var input := LoginInput(form);
    var issues := LoginIssues(input, isEmail);
    if issues != [] {
      var m := Message(issues[0]);
      return Redirect("/login?error=" + encode(if m != "" then m else LoginFallbackMessage)), [];
    }
    var email := Get(input.fields, "email");
    var errorRedirectUrl := "";
    effects := [];
    match signIn {
      case Rejected(reason) =>
        effects := effects + [Log(Warn, "LOGIN_FAILED", map["email" := email, "reason" := Str(reason)])];
        errorRedirectUrl := "/login?error=" + encode(TranslateAuthError(reason));
      case SignInThrew =>
        effects := effects + [Log(Err, "LOGIN_ERROR", map[])];
        errorRedirectUrl := "/login?error=" + encode(ServerErrorMessage);
      case SignedIn =>
        effects := effects + [Log(Info, "LOGIN_SUCCESS", map["email" := email])];
    }
    if errorRedirectUrl != "" {
      return Redirect(errorRedirectUrl), effects;
    }
    effects := effects + [RevalidateLayout("/")];
    out := Redirect("/");
  }

  /** Every message `LoginSchema` reports is non-empty, so the fallback text of
      `login` is never shown. */
  lemma LoginMessageNonEmpty(form: FormData, isEmail: string -> bool)
    ensures var issues := LoginIssues(LoginInput(form), isEmail);
            issues != [] ==> Message(issues[0]) != "" && Message(issues[0]) != LoginFallbackMessage
  {
  }

  /** `signup`: public sign-up is closed; the form is ignored. */
  function Signup(form: FormData, encode: string -> string): (out: Outcome<()>)
    ensures out == Redirect("/login?error=" + encode(SignupClosedMessage))
  {
    Redirect("/login?error=" + encode(SignupClosedMessage))
  }
}
