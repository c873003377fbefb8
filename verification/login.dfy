/** The login form (internal/app/middleware/login.go): a two-phase editor
    over a username buffer and a password buffer, checked against one fixed
    pair of credentials. */
module Login {
  import opened Tea

  /** The key types the form tells apart. Every other key is `Other`, carrying
      the text Bubble Tea gives for it (a typed rune, or a key name such as
      "tab"), which the form appends verbatim. */
  datatype Key = Enter | Backspace | Delete | CtrlC | Esc | CtrlD | Other(text: string)

  /** A key press, or any other message (window size, mouse, ...), which the
      form ignores. */
  datatype Msg = KeyPress(key: Key) | NonKey

  datatype LoginModel = LoginModel(
    username: string,
    password: string,
    errMsg: string,
    isPassword: bool,    // typing goes to the password buffer
    isEnterPwMsg: bool   // show the "Enter password:" prompt
  )

  const ValidUsername := "user"
  const ValidPassword := "pass"
  const InvalidCredentials := "Invalid username or password"
  const Prompt := "Please enter your credentials:\n\n"

  /** The zero value `LoginModel{}` the program starts from. */
  function Initial(): (m: LoginModel)
    ensures m.username == "" && m.password == "" && m.errMsg == ""
    ensures !m.isPassword && !m.isEnterPwMsg
  {
    LoginModel("", "", "", false, false)
  }

  /** The buffer typing currently goes to. */
  function Active(m: LoginModel): string
  {
    if m.isPassword then m.password else m.username
  }

  /** The buffer typing currently does not reach. */
  function Inactive(m: LoginModel): string
  {
    if m.isPassword then m.username else m.password
  }

  function SetActive(m: LoginModel, s: string): (r: LoginModel)
    ensures Active(r) == s && Inactive(r) == Inactive(m)
    ensures r.errMsg == m.errMsg && r.isPassword == m.isPassword && r.isEnterPwMsg == m.isEnterPwMsg
  {
    if m.isPassword then m.(password := s) else m.(username := s)
  }

  predicate IsQuitKey(k: Key)
  {
    k == CtrlC || k == Esc || k == CtrlD
  }

  /** The model after a failed login: both buffers and both flags cleared,
      the error message set. */
  function Rejected(): LoginModel
  {
    LoginModel("", "", InvalidCredentials, false, false)
  }

  /** Enter: submit the username, or check the credentials. A match leaves
      the model exactly as it is; a mismatch starts over with an error. */
  function Submit(m: LoginModel): (r: LoginModel)
    ensures !m.isPassword ==> r == m.(isPassword := true, isEnterPwMsg := true)
    ensures m.isPassword && m.username == ValidUsername && m.password == ValidPassword ==> r == m
    ensures m.isPassword && !(m.username == ValidUsername && m.password == ValidPassword) ==>
              r.username == "" && r.password == "" && r.errMsg == InvalidCredentials
              && !r.isPassword && !r.isEnterPwMsg
  {
    if m.isPassword then
      if m.username == ValidUsername && m.password == ValidPassword then m
      else Rejected()
    else
      m.(isPassword := true, isEnterPwMsg := true)
  }

  /** Backspace and Delete drop the last character of the active buffer. */
  function Erase(m: LoginModel): (r: LoginModel)
    ensures Inactive(r) == Inactive(m) && r.errMsg == m.errMsg
    ensures r.isPassword == m.isPassword && r.isEnterPwMsg == m.isEnterPwMsg
    ensures Active(m) == [] ==> r == m
    ensures Active(m) != [] ==> Active(r) + [Active(m)[|Active(m)| - 1]] == Active(m)
  {
    var buf := Active(m);
    if |buf| > 0 then SetActive(m, buf[..|buf| - 1]) else m
  }

  /** One step of the form. */
  function Update(m: LoginModel, msg: Msg): (r: Step<LoginModel>)
    ensures r.cmd == (if msg.KeyPress? && IsQuitKey(msg.key) then Quit else NoCmd)
    ensures r.cmd == Quit ==> r.model == m
    ensures msg.NonKey? ==> r.model == m
    // the inactive buffer is only ever touched by a failed login, which clears it
    ensures (if m.isPassword then r.model.username else r.model.password) == Inactive(m)
            || r.model == Rejected()
    ensures Valid(m) ==> Valid(r.model)
  {
    match msg
    case NonKey => Step(m, NoCmd)
    case KeyPress(k) =>
      match k
      case Enter => Step(Submit(m), NoCmd)
      case Backspace => Step(Erase(m), NoCmd)
      case Delete => Step(Erase(m), NoCmd)
      case CtrlC => Step(m, Quit)
      case Esc => Step(m, Quit)
      case CtrlD => Step(m, Quit)
      case Other(text) => Step(SetActive(m, Active(m) + text), NoCmd)
  }

  /** The states the form can reach: the two flags move together, and the
      error message is either empty or the one failure message. */
  ghost predicate Valid(m: LoginModel)
  {
    && m.isPassword == m.isEnterPwMsg
    && (m.errMsg == "" || m.errMsg == InvalidCredentials)
  }

  /** The final model after feeding `msgs` in order. */
  function Run(m: LoginModel, msgs: seq<Msg>): LoginModel
    decreases |msgs|
  {
    if msgs == [] then m else Run(Update(m, msgs[0]).model, msgs[1..])
  }

  /** One key press per character of `s`. */
  function Typed(s: string): (keys: seq<Msg>)
    ensures |keys| == |s|
  {
    if s == [] then [] else [KeyPress(Other([s[0]]))] + Typed(s[1..])
  }

  /** `n` asterisks: the mask drawn in place of the password. */
  function Mask(n: nat): (r: string)
    ensures |r| == n
    ensures forall i :: 0 <= i < |r| ==> r[i] == '*'
  {
    if n == 0 then "" else Mask(n - 1) + "*"
  }

  function UsernameLine(m: LoginModel): string
  {
    if m.username == "" then "Username: " else "Username: " + m.username + "\n"
  }

  function PasswordLine(m: LoginModel): string
  {
    if m.isPassword then "Password: " + Mask(|m.password|) + "\n"
    else if m.isEnterPwMsg then "Enter password: "
    else ""
  }

  function ErrorLine(m: LoginModel): string
  {
    if m.errMsg != "" then "\n" + m.errMsg + "\n" else ""
  }

  /** The rendered form. */
  function View(m: LoginModel): (r: string)
    ensures |Prompt| <= |r| && r[..|Prompt|] == Prompt
  {
    Prompt + UsernameLine(m) + PasswordLine(m) + ErrorLine(m)
  }

  // ----- properties -----

  /** Enter on the username moves to the password without touching either
      buffer or the error message. */
  lemma EnterMovesToPassword(m: LoginModel)
    requires !m.isPassword
    ensures var r := Update(m, KeyPress(Enter));
            && r.cmd == NoCmd
            && r.model.isPassword && r.model.isEnterPwMsg
            && r.model.username == m.username && r.model.password == m.password
            && r.model.errMsg == m.errMsg
  {
  }

  /** Wrong credentials wipe both buffers, clear both flags and set the error. */
  lemma WrongCredentialsReset(m: LoginModel)
    requires m.isPassword
    requires m.username != ValidUsername || m.password != ValidPassword
    ensures var r := Update(m, KeyPress(Enter));
            && r.cmd == NoCmd
            && r.model.username == "" && r.model.password == ""
            && r.model.errMsg == InvalidCredentials
            && !r.model.isPassword && !r.model.isEnterPwMsg
  {
  }

  /** The right credentials change nothing and ask for nothing. */
  lemma RightCredentialsChangeNothing(m: LoginModel)
    requires m.isPassword && m.username == ValidUsername && m.password == ValidPassword
    ensures Update(m, KeyPress(Enter)) == Step(m, NoCmd)
  {
  }

  /** Erasing right after typing one character gives the model back. */
  lemma EraseUndoesTyping(m: LoginModel, c: char, erase: Key)
    requires erase == Backspace || erase == Delete
    ensures Update(Update(m, KeyPress(Other([c]))).model, KeyPress(erase)).model == m
  {

  }

  /** Any key the form does not name (a rune, a pasted string, or a key name
      such as "tab") is appended as a whole to the buffer being typed into. */
  lemma KeyAppends(m: LoginModel, t: string)
    ensures Update(m, KeyPress(Other(t))) == Step(SetActive(m, Active(m) + t), NoCmd)
    ensures Active(Update(m, KeyPress(Other(t))).model) == Active(m) + t
  {
  }

  /** Backspace and Delete both erase one character from the end of the
      buffer being typed into. */
  lemma EraseKeys(m: LoginModel, k: Key)
    requires k == Backspace || k == Delete
    ensures Update(m, KeyPress(k)) == Step(Erase(m), NoCmd)
  {
  }

  lemma {:induction false} RunAppend(m: LoginModel, a: seq<Msg>, b: seq<Msg>)
    ensures Run(m, a + b) == Run(Run(m, a), b)
    decreases |a|
  {
    if a != [] {
      assert (a + b)[0] == a[0];
      assert (a + b)[1..] == a[1..] + b;
      RunAppend(Update(m, a[0]).model, a[1..], b);
    } else {
      assert a + b == b;
    }
  }

  lemma RunFirst(m: LoginModel, msg: Msg, rest: seq<Msg>)
    ensures Run(m, [msg] + rest) == Run(Update(m, msg).model, rest)
  {

  }

  /** Typing a string key by key appends it to the active buffer and does
      nothing else (SetActive keeps the other buffer, the error and the
      flags). */
  lemma {:induction false} TypingAppends(m: LoginModel, s: string)
    ensures Run(m, Typed(s)) == SetActive(m, Active(m) + s)
    decreases |s|
  {
    if s == [] {
      assert Active(m) + s == Active(m);
    } else {
      var key := KeyPress(Other([s[0]]));
      var next := SetActive(m, Active(m) + [s[0]]);
      assert Update(m, key).model == next;
      RunFirst(m, key, Typed(s[1..]));
      TypingAppends(next, s[1..]);
      assert Active(m) + [s[0]] + s[1..] == Active(m) + s;
    }
  }

  /** Every state reachable from the initial one is Valid. */
  lemma {:induction false} RunKeepsValid(m: LoginModel, msgs: seq<Msg>)
    requires Valid(m)
    ensures Valid(Run(m, msgs))
    decreases |msgs|
  {
    if msgs != [] {
      RunKeepsValid(Update(m, msgs[0]).model, msgs[1..]);
    }
  }

  /** Typing "user", Enter, "pass", Enter from the start ends with both
      buffers filled, password mode on, and a final Enter that changes
      nothing and issues no command. */
  lemma LoginScenario()
    ensures var last := Run(Initial(), Typed("user") + [KeyPress(Enter)] + Typed("pass"));
            && last == LoginModel("user", "pass", "", true, true)
            && Update(last, KeyPress(Enter)) == Step(last, NoCmd)
            && Run(Initial(), Typed("user") + [KeyPress(Enter)] + Typed("pass") + [KeyPress(Enter)]) == last
  {
    var m0 := Initial();
    TypingAppends(m0, "user");
    var m1 := Run(m0, Typed("user"));
    assert m1 == LoginModel("user", "", "", false, false);
    RunAppend(m0, Typed("user"), [KeyPress(Enter)]);
    var m2 := Run(m0, Typed("user") + [KeyPress(Enter)]);
    assert m2 == Run(m1, [KeyPress(Enter)]);
    assert m2 == LoginModel("user", "", "", true, true);
    TypingAppends(m2, "pass");
    RunAppend(m0, Typed("user") + [KeyPress(Enter)], Typed("pass"));
    var m3 := Run(m0, Typed("user") + [KeyPress(Enter)] + Typed("pass"));
    assert m3 == LoginModel("user", "pass", "", true, true);
    RunAppend(m0, Typed("user") + [KeyPress(Enter)] + Typed("pass"), [KeyPress(Enter)]);
    assert Run(m3, [KeyPress(Enter)]) == Run(Update(m3, KeyPress(Enter)).model, []);
  }

  /** The password shows only through its length: two passwords of the same
      length render the same form. */
  lemma ViewShowsOnlyPasswordLength(m: LoginModel, p: string)
    requires |p| == |m.password|
    ensures View(m.(password := p)) == View(m)
  {
  }

  /** In password mode the line after the username reads "Password: ",
      then one '*' per character of the password, then a line break. */
  lemma PasswordLineMasked(m: LoginModel)
    requires m.isPassword
    ensures var v := View(m);
            var at := |Prompt| + |UsernameLine(m)|;
            var n := |m.password|;
            && at + 11 + n <= |v|
            && v[at..at + 10] == "Password: "
            && (forall i :: at + 10 <= i < at + 10 + n ==> v[i] == '*')
            && v[at + 10 + n] == '\n'
  {

  }

  /** Outside password mode the password does not show at all. */
  lemma ViewHidesPasswordUntilPasswordMode(m: LoginModel, p: string)
    requires !m.isPassword
    ensures View(m.(password := p)) == View(m)
  {
  }

  /** The error line is present exactly when there is an error message, and
      it is the last line of the form. */
  lemma ErrorLineIffMessage(m: LoginModel)
    ensures m.errMsg == "" <==> View(m) == View(m.(errMsg := ""))
    ensures m.errMsg != "" ==> View(m) == View(m.(errMsg := "")) + "\n" + m.errMsg + "\n"
  {
    var clean := m.(errMsg := "");
    assert UsernameLine(clean) == UsernameLine(m) && PasswordLine(clean) == PasswordLine(m);
    if m.errMsg != "" {
      assert |View(m)| == |View(clean)| + |m.errMsg| + 2;
    }
  }
}
