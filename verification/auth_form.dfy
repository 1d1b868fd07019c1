/**
 The three event handlers of the authentication form as pure transitions:
 a field edit, the login/sign-up toggle and a submission. A submission
 returns the next state together with the one effect it performs.
 */
module AuthForm {
  import opened AuthState

  /** The outcome of one submission: the next state and the single effect
      every submission performs (sessions of several events collect their
      effects in a sequence instead, see `AuthSession.Reaction`). */
  datatype Transition = Transition(next: State, effect: Effect)

  /** Typing into input `f`: only that field takes the new value. */
  function HandleChange(s: State, f: Field, v: string): (r: State)
    ensures r.mode == s.mode
    ensures forall g :: Get(r.form, g) == (if g == f then v else Get(s.form, g))
  {
    State(s.mode, Set(s.form, f, v))
  }

  /** The toggle button under the form: switches mode, keeps what was typed. */
  function ToggleMode(s: State): (r: State)
    ensures r.form == s.form
    ensures r.mode != s.mode
  {
    match s.mode
    case Login => State(Signup, s.form)
    case Signup => State(Login, s.form)
  }

  /** Submitting the form. In login mode both shown fields must be non-empty
      to reach the dashboard; in sign-up mode the empty-field check comes
      before the password comparison, and only a successful sign-up changes
      the state, back to an empty login form. */
  function HandleSubmit(s: State): (r: Transition)
    ensures r.effect == Navigate(DashboardPath) <==> LoginReady(s)
    ensures r.effect == Alert(FillAllFields) <==> !AllFilled(s)
    ensures r.effect == Alert(PasswordsDiffer) <==>
              s.mode == Signup && AllFilled(s) && s.form.password != s.form.confirmPassword
    ensures r.effect == Alert(SignupSucceeded) <==> SignupReady(s)
    ensures r.next == (if SignupReady(s) then Initial else s)
  {
    AllFilledByMode(s);
    match s.mode
    case Login =>
      if s.form.username != "" && s.form.password != "" then
        Transition(s, Navigate(DashboardPath))
      else
        Transition(s, Alert(FillAllFields))
    case Signup =>
      if s.form.name == "" || s.form.username == "" || s.form.password == "" || s.form.confirmPassword == "" then
        Transition(s, Alert(FillAllFields))
      else if s.form.password != s.form.confirmPassword then
        Transition(s, Alert(PasswordsDiffer))
      else
        Transition(Initial, Alert(SignupSucceeded))
  }

  /** Writing a field twice keeps only the second value. */
  lemma ChangeLastWriteWins(s: State, f: Field, v: string, w: string)
    ensures HandleChange(HandleChange(s, f, v), f, w) == HandleChange(s, f, w)
  {
  }

  /** Edits to different fields commute. */
  lemma ChangesCommute(s: State, f: Field, v: string, g: Field, w: string)
    requires f != g
    ensures HandleChange(HandleChange(s, f, v), g, w) == HandleChange(HandleChange(s, g, w), f, v)
  {
  }

  /** Re-entering the text a field already holds changes nothing. */
  lemma ChangeToSameValue(s: State, f: Field)
    ensures HandleChange(s, f, Get(s.form, f)) == s
  {
  }

  /** Toggling twice is the identity. */
  lemma ToggleTwice(s: State)
    ensures ToggleMode(ToggleMode(s)) == s
  {
  }

  /** A submission never leads anywhere but the dashboard, and only from login mode. */
  lemma SubmitNavigatesOnlyFromLogin(s: State)
    ensures HandleSubmit(s).effect.Navigate? ==> s.mode == Login && HandleSubmit(s).effect.path == DashboardPath
    ensures s.mode == Signup ==> HandleSubmit(s).effect.Alert?
  {
  }

  /** A login submission reads only the username and password: the hidden
      name and confirmation fields make no difference to it. */
  lemma LoginIgnoresHiddenFields(s: State, t: State)
    requires s.mode == Login && t.mode == Login
    requires s.form.username == t.form.username && s.form.password == t.form.password
    ensures HandleSubmit(s).effect == HandleSubmit(t).effect
    ensures HandleSubmit(s).next == s && HandleSubmit(t).next == t
  {
  }

  /** A rejected submission leaves the state as it was, so submitting again
      gives the same answer. */
  lemma RejectedSubmitRepeats(s: State)
    requires HandleSubmit(s).effect.Alert? && HandleSubmit(s).effect.message != SignupSucceeded
    ensures HandleSubmit(s).next == s
    ensures HandleSubmit(HandleSubmit(s).next) == HandleSubmit(s)
  {
  }

  /** A successful sign-up lands on the initial state, where an immediate
      submission is refused for empty fields. */
  lemma SignupResetsForm(s: State)
    requires SignupReady(s)
    ensures HandleSubmit(s).next == Initial
    ensures HandleSubmit(HandleSubmit(s).next).effect == Alert(FillAllFields)
  {
  }
}
