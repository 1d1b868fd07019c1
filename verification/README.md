# Authentication form controller

A Dafny model of the login / sign-up form of the brain-training dashboard
(`frontend/src/components/Authform/Authform.jsx`). The form is a small state
machine. Its state is a mode (login or sign-up) plus four text fields: name,
username, password and password confirmation. It reacts to three events:

- typing into an input;
- clicking the toggle button under the form;
- submitting the form.

A submission performs exactly one effect. It either moves the browser to the
`/dashboard` route or shows an alert with one of three fixed messages. The
model turns each handler into a pure function from a state to the next state,
plus the effect as a value. A whole session is a sequence of events handled
one after the other, for as long as the form stays mounted.

- `auth_state.dfy` (module `AuthState`): modes, fields, the form record, effects and the message constants. It also holds the initial state and the set of inputs each mode renders.
- `auth_form.dfy` (module `AuthForm`): the handlers `HandleChange`, `ToggleMode` and `HandleSubmit`, with their laws.
- `auth_session.dfy` (module `AuthSession`): events, `Run` over event sequences, and properties of whole sessions.

The checks in `HandleSubmit` are specified through the inputs on screen
(`VisibleFields`). Login shows the username and password. Sign-up shows all
four fields. "Please fill all fields!" appears exactly when an input on screen
is empty. In sign-up mode this check runs before the password comparison. JavaScript treats a string as true
exactly when it is non-empty, and `!==` on two strings is inequality of their
character sequences; the model writes both out that way.

## Model

| member | source | states |
|---|---|---|
| AuthState.InitialIsEmptyLogin | frontend/src/components/Authform/Authform.jsx:6-12 | the mounted form is in login mode with all four fields empty, so it is not ready to submit |
| AuthState.Set | frontend/src/components/Authform/Authform.jsx:17 | the spread with a computed key gives the named field the new text and leaves the other three as they were |
| AuthState.VisibleFields | frontend/src/components/Authform/Authform.jsx:49-95 | username and password are always rendered; name and confirmation are rendered exactly in sign-up mode |
| AuthState.AllFilledByMode | frontend/src/components/Authform/Authform.jsx:23-33 | "every input on screen is filled" means username and password are non-empty in login mode, and all four fields are non-empty in sign-up mode |
| AuthForm.HandleChange | frontend/src/components/Authform/Authform.jsx:16-18 | a change event sets exactly the named field to the new value; the mode and every other field are unchanged |
| AuthForm.ToggleMode | frontend/src/components/Authform/Authform.jsx:104 | the toggle flips the mode and leaves all four fields untouched |
| AuthForm.HandleSubmit | frontend/src/components/Authform/Authform.jsx:20-42 | submitting navigates to /dashboard iff in login mode with username and password filled; alerts "Please fill all fields!" iff an input on screen is empty, which in sign-up mode takes precedence over the password comparison; alerts "Passwords do not match!" iff in sign-up mode with all filled and the passwords differing; alerts "Signup successful! Please login." iff in sign-up mode with all filled and equal passwords; the state is then reset to the initial state, and otherwise left unchanged |
| AuthForm.ChangeLastWriteWins | frontend/src/components/Authform/Authform.jsx:17 | editing a field twice is the same as only the second edit |
| AuthForm.ChangesCommute | frontend/src/components/Authform/Authform.jsx:17 | edits to two different fields can be applied in either order |
| AuthForm.ChangeToSameValue | frontend/src/components/Authform/Authform.jsx:17 | writing back a field's current text leaves the state unchanged |
| AuthForm.ToggleTwice | frontend/src/components/Authform/Authform.jsx:104 | toggling twice is the identity |
| AuthForm.SubmitNavigatesOnlyFromLogin | frontend/src/components/Authform/Authform.jsx:23-41 | only a login-mode submission can navigate, and only to /dashboard; a sign-up submission always alerts |
| AuthForm.LoginIgnoresHiddenFields | frontend/src/components/Authform/Authform.jsx:23-28 | a login submission's effect depends only on username and password, not on name or confirmation, and leaves the state unchanged |
| AuthForm.RejectedSubmitRepeats | frontend/src/components/Authform/Authform.jsx:26-37 | a refused submission leaves the state unchanged, so submitting again gives the same alert |
| AuthForm.SignupResetsForm | frontend/src/components/Authform/Authform.jsx:38-40 | a successful sign-up returns the initial state, where the next submission is refused for empty fields |
| AuthSession.Step | frontend/src/components/Authform/Authform.jsx:48-104 | a submit event yields exactly one effect and the other events yield none; a change keeps the mode and a toggle flips it |
| AuthSession.RunEffectCount | frontend/src/components/Authform/Authform.jsx:16-42 | a session produces exactly as many effects as it has submissions |
| AuthSession.RunConcat | frontend/src/components/Authform/Authform.jsx:16-42 | a session split in two is the first part followed by the second part, started from where the first part ended |
| AuthSession.RunEffectsKnown | frontend/src/components/Authform/Authform.jsx:23-41 | every effect of any session is the move to /dashboard or one of the three fixed alert messages |
| AuthSession.QuietRunMode | frontend/src/components/Authform/Authform.jsx:104 | with no submission, a session has no effects, and it ends in the starting mode iff it holds an even number of toggles |
| AuthSession.QuietRunLastEdit | frontend/src/components/Authform/Authform.jsx:17 | with no submission, a field ends with the value of its last edit, even when toggles come in between |
| AuthSession.QuietRunUntouched | frontend/src/components/Authform/Authform.jsx:17 | with no submission, a field that is never edited keeps its starting value |
| AuthSession.NavigateIffReadySubmit | frontend/src/components/Authform/Authform.jsx:23-28 | a session reaches the dashboard iff one of its submissions happened in login mode with username and password filled |
| AuthSession.MountedNavigatesLast | frontend/src/components/Authform/Authform.jsx:23-25 | in a session with no event after a login-ready submission (navigating away unmounts the form), the move to /dashboard occurs at most once and only as the last effect |
| AuthSession.SignupFilled | frontend/src/components/Authform/Authform.jsx:16-18 | opening sign-up and typing all four fields stores them with no effect |
| AuthSession.SignupWalk | frontend/src/components/Authform/Authform.jsx:30-40 | submitting a filled sign-up form with matching passwords shows the success alert and ends in the initial state |
| AuthSession.LoginWalk | frontend/src/components/Authform/Authform.jsx:23-25 | typing credentials into the initial form and submitting navigates to /dashboard |
| AuthSession.SignupThenLogin | frontend/src/components/Authform/Authform.jsx:20-42 | signing up and then logging in with any non-empty credentials, not only the ones just signed up, yields the success alert followed by the move to /dashboard: sign-up stores nothing |

## Left out

- Rendering, CSS, the heading and button labels, and `e.preventDefault()` are left out. They change nothing in the form's state.
- The browser's `alert` and the router's `navigate` are not performed. The model returns them as `Effect` values. The `/dashboard` route (`frontend/src/App.jsx:13`) is only a path string here.
- React batches its state updates asynchronously. The model instead handles each event atomically, in order. The two updates of a successful sign-up (lines 39-40) are applied together.
- Run: it keeps handling events after a move to the dashboard, although `navigate("/dashboard")` (line 25) replaces the form by the dashboard route (`frontend/src/App.jsx:12-13`), which discards the form's state; a session means something only up to its first `Navigate`. `Mounted` names such sessions and `MountedNavigatesLast` is stated over them. Coming back to `/` remounts the form in its initial state; that remount is not modelled.
- `HandleChange` takes a `Field`, one of the four input names, not an arbitrary string. The handler is wired only to the four inputs (lines 54, 65, 76, 89). An arbitrary `e.target.name` would add a property that no check reads.
- Field values are always strings. The inputs always supply text, so `undefined` or non-string values are not modelled.
- The model does not forbid change events for inputs that are not rendered in the current mode. The handler does not check the mode either.
- The speech-capture widget (`frontend/src/Components/speech.jsx`) is left out. It wraps the browser speech API and a network call. Its code replaces the text with the first result instead of accumulating results. It also refers to names it never defines (`transcript`, `setResponse`). So it has no coherent behaviour to state, and transcript accumulation, empty-transcript rejection and error-string mapping are not modelled.
- The dashboard (`frontend/src/components/Dashboard/Dashboard.jsx`) is left out. It is chart rendering over random floating-point scores.
- The backend (`backend/main.py`) is left out. It passes a transcript to an external language-model call, and its output is opaque text.
