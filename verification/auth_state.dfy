/**
 The state of the sign-in / sign-up form: which of the two modes the form is
 in, the four text fields it holds, and the effects a submission asks the
 browser to perform (a route change or an alert box).
 */
module AuthState {

  /** The form either signs an existing user in or creates an account. */
  datatype Mode = Login | Signup

  /** The four inputs of the form, named as their `name` attributes. */
  datatype Field = Name | Username | Password | ConfirmPassword

  /** The record of field values; every value is the text typed so far. */
  datatype Form = Form(name: string, username: string, password: string, confirmPassword: string)

  datatype State = State(mode: Mode, form: Form)

  /** What the form asks of its surroundings after a submission. */
  datatype Effect = Navigate(path: string) | Alert(message: string)

  const DashboardPath: string := "/dashboard"
  const FillAllFields: string := "Please fill all fields!"
  const PasswordsDiffer: string := "Passwords do not match!"
  const SignupSucceeded: string := "Signup successful! Please login."

  /** The form with every field empty. */
  const EmptyForm: Form := Form("", "", "", "")

  /** A freshly mounted form: login mode, nothing typed. */
  const Initial: State := State(Login, EmptyForm)

  /** The text currently held by input `f`. */
  function Get(form: Form, f: Field): (v: string)
  {
    match f
    case Name => form.name
    case Username => form.username
    case Password => form.password
    case ConfirmPassword => form.confirmPassword
  }

  /** The form with field `f` replaced by `v` (the object spread with a computed key). */
  function Set(form: Form, f: Field, v: string): (r: Form)
    ensures Get(r, f) == v
    ensures forall g :: g != f ==> Get(r, g) == Get(form, g)
  {
    match f
    case Name => form.(name := v)
    case Username => form.(username := v)
    case Password => form.(password := v)
    case ConfirmPassword => form.(confirmPassword := v)
  }

  /** Two forms that agree on every field are the same form. */
  lemma FormExtensionality(a: Form, b: Form)
    requires forall f :: Get(a, f) == Get(b, f)
    ensures a == b
  {
    assert Get(a, Name) == Get(b, Name);
    assert Get(a, Username) == Get(b, Username);
    assert Get(a, Password) == Get(b, Password);
    assert Get(a, ConfirmPassword) == Get(b, ConfirmPassword);
  }

  /** The inputs the form renders in each mode: the name and confirmation
      inputs appear only while signing up. */
  function VisibleFields(m: Mode): (fs: set<Field>)
    ensures Username in fs && Password in fs
    ensures Name in fs <==> m == Signup
    ensures ConfirmPassword in fs <==> m == Signup
  {
    match m
    case Login => {Username, Password}
    case Signup => {Name, Username, Password, ConfirmPassword}
  }

  /** Every field shown on screen holds some text. */
  predicate AllFilled(s: State)
  {
    forall f :: f in VisibleFields(s.mode) ==> Get(s.form, f) != ""
  }

  /** Spelled out per mode: login needs the username and password, sign-up
      needs all four fields. */
  lemma AllFilledByMode(s: State)
    ensures s.mode == Login ==>
              (AllFilled(s) <==> s.form.username != "" && s.form.password != "")
    ensures s.mode == Signup ==>
              (AllFilled(s) <==> s.form.name != "" && s.form.username != ""
                                 && s.form.password != "" && s.form.confirmPassword != "")
  {
    assert Get(s.form, Name) == s.form.name;
    assert Get(s.form, Username) == s.form.username;
    assert Get(s.form, Password) == s.form.password;
    assert Get(s.form, ConfirmPassword) == s.form.confirmPassword;
  }

  /** A state from which a submission signs in. */
  predicate LoginReady(s: State)
  {
    s.mode == Login && AllFilled(s)
  }

  /** A state from which a submission creates the account. */
  predicate SignupReady(s: State)
  {
    s.mode == Signup && AllFilled(s) && s.form.password == s.form.confirmPassword
  }

  /** The initial state is login mode with all four fields empty. */
  lemma InitialIsEmptyLogin()
    ensures Initial.mode == Login
    ensures forall f :: Get(Initial.form, f) == ""
    ensures !AllFilled(Initial)
  {
    assert Get(Initial.form, Username) == "";
  }
}
