/**
 A session with the form as a sequence of user events, each handled to
 completion before the next one, and the effects the session produces in
 order.
 */
module AuthSession {
  import opened AuthState
  import opened AuthForm

  /** The events the rendered form reacts to: an input's change handler,
      the toggle button's click and the form's submit. */
  datatype Event = FieldChanged(field: Field, value: string) | ModeToggled | Submitted

  /** The state after some events and the effects they produced, in order.
      Unlike a submission's `Transition`, which carries exactly one effect,
      a field edit or a toggle produces none, so the effects are a sequence. */
  datatype Reaction = Reaction(next: State, effects: seq<Effect>)

  /** Dispatches one event to its handler. Only a submission has an effect. */
  function Step(s: State, e: Event): (r: Reaction)
    ensures |r.effects| == (if e == Submitted then 1 else 0)
    ensures e != Submitted ==> r.next.mode == (if e == ModeToggled then ToggleMode(s).mode else s.mode)
  {
    match e
    case FieldChanged(f, v) => Reaction(HandleChange(s, f, v), [])
    case ModeToggled => Reaction(ToggleMode(s), [])
    case Submitted =>
      var t := HandleSubmit(s);
      Reaction(t.next, [t.effect])
  }

  /** Every effect a session can produce: a move to the dashboard or one of
      the three fixed alert messages. */
  predicate KnownEffect(e: Effect)
  {
    match e
    case Navigate(p) => p == DashboardPath
    case Alert(m) => m == FillAllFields || m == PasswordsDiffer || m == SignupSucceeded
  }

  /** Handles the events one after the other, starting from `s`. */
  function Run(s: State, evs: seq<Event>): (r: Reaction)
    decreases |evs|
  {
    if evs == [] then
      Reaction(s, [])
    else
      var n := |evs| - 1;
      var before := Run(s, evs[..n]);
      var last := Step(before.next, evs[n]);
      Reaction(last.next, before.effects + last.effects)
  }

  /** Handling one more event extends the session by that event's step. */
  lemma RunSnoc(s: State, evs: seq<Event>, e: Event)
    ensures Run(s, evs + [e]).next == Step(Run(s, evs).next, e).next
    ensures Run(s, evs + [e]).effects == Run(s, evs).effects + Step(Run(s, evs).next, e).effects
  {
    assert (evs + [e])[..|evs|] == evs;
  }

  /** A session produces one effect per submission and none for anything else. */
  lemma {:induction false} RunEffectCount(s: State, evs: seq<Event>)
    ensures |Run(s, evs).effects| == multiset(evs)[Submitted]
    decreases |evs|
  {
    if evs != [] {
      var n := |evs| - 1;
      assert evs == evs[..n] + [evs[n]];
      assert multiset(evs) == multiset(evs[..n]) + multiset{evs[n]};
      RunEffectCount(s, evs[..n]);
    }
  }

  /** Every effect of every session is one the form knows how to produce. */
  lemma {:induction false} RunEffectsKnown(s: State, evs: seq<Event>)
    ensures forall e :: e in Run(s, evs).effects ==> KnownEffect(e)
    decreases |evs|
  {
    if evs != [] {
      var n := |evs| - 1;
      RunSnoc(s, evs[..n], evs[n]);
      assert evs == evs[..n] + [evs[n]];
      RunEffectsKnown(s, evs[..n]);
      var t := HandleSubmit(Run(s, evs[..n]).next);
      assert KnownEffect(t.effect);
    }
  }

  /** A session split in two is the first part followed by the second part
      started where the first one left off. */
  lemma {:induction false} RunConcat(s: State, a: seq<Event>, b: seq<Event>)
    ensures Run(s, a + b).next == Run(Run(s, a).next, b).next
    ensures Run(s, a + b).effects == Run(s, a).effects + Run(Run(s, a).next, b).effects
    decreases |b|
  {
    if b == [] {
      assert a + b == a;
    } else {
      var n := |b| - 1;
      var b', e := b[..n], b[n];
      var mid := Run(s, a).next;
      assert b == b' + [e];
      assert a + b == (a + b') + [e];
      RunConcat(s, a, b');
      RunSnoc(s, a + b', e);
      RunSnoc(mid, b', e);
      var step := Step(Run(mid, b').next, e);
      assert Run(s, a + b).next == step.next;
      assert Run(s, a + b).effects == (Run(s, a).effects + Run(mid, b').effects) + step.effects;
      assert Run(mid, b).effects == Run(mid, b').effects + step.effects;
    }
  }

  /** Without a submission there are no effects, and the mode has flipped
      once per toggle. */
  lemma {:induction false} QuietRunMode(s: State, evs: seq<Event>)
    requires Submitted !in evs
    ensures Run(s, evs).effects == []
    ensures Run(s, evs).next.mode ==
              (if multiset(evs)[ModeToggled] % 2 == 0 then s.mode else ToggleMode(s).mode)
    decreases |evs|
  {
    if evs != [] {
      var n := |evs| - 1;
      assert evs == evs[..n] + [evs[n]];
      assert multiset(evs) == multiset(evs[..n]) + multiset{evs[n]};
      QuietRunMode(s, evs[..n]);
      RunSnoc(s, evs[..n], evs[n]);
    }
  }

  /** Without a submission, a field holds the value of the last edit made
      to it. */
  lemma {:induction false} QuietRunLastEdit(s: State, evs: seq<Event>, i: int, f: Field, v: string)
    requires Submitted !in evs
    requires 0 <= i < |evs| && evs[i] == FieldChanged(f, v)
    requires forall j :: i < j < |evs| ==> !(evs[j].FieldChanged? && evs[j].field == f)
    ensures Get(Run(s, evs).next.form, f) == v
    decreases |evs|
  {
    var n := |evs| - 1;
    assert evs == evs[..n] + [evs[n]];
    RunSnoc(s, evs[..n], evs[n]);
    if i < n {
      QuietRunLastEdit(s, evs[..n], i, f, v);
    }
  }

  /** Without a submission, a field nobody edited keeps its value. */
  lemma {:induction false} QuietRunUntouched(s: State, evs: seq<Event>, f: Field)
    requires Submitted !in evs
    requires forall j :: 0 <= j < |evs| ==> !(evs[j].FieldChanged? && evs[j].field == f)
    ensures Get(Run(s, evs).next.form, f) == Get(s.form, f)
    decreases |evs|
  {
    if evs != [] {
      var n := |evs| - 1;
      assert evs == evs[..n] + [evs[n]];
      RunSnoc(s, evs[..n], evs[n]);
      QuietRunUntouched(s, evs[..n], f);
    }
  }

  /** The `i`-th event of the session is a submission made while ready to log in. */
  predicate LoginSubmitAt(s: State, evs: seq<Event>, i: int)
  {
    0 <= i < |evs| && evs[i] == Submitted && LoginReady(Run(s, evs[..i]).next)
  }

  /** A session reaches the dashboard exactly when some submission happened
      in a state that was ready to log in. */
  lemma {:induction false} NavigateIffReadySubmit(s: State, evs: seq<Event>)
    ensures Navigate(DashboardPath) in Run(s, evs).effects <==> exists i :: LoginSubmitAt(s, evs, i)
    decreases |evs|
  {
    if evs == [] {
    } else {
      var n := |evs| - 1;
      var pre := evs[..n];
      assert evs == pre + [evs[n]];
      RunSnoc(s, pre, evs[n]);
      NavigateIffReadySubmit(s, pre);
      var here := evs[n] == Submitted && LoginReady(Run(s, pre).next);
      assert Navigate(DashboardPath) in Step(Run(s, pre).next, evs[n]).effects <==> here;
      assert forall i :: 0 <= i < n ==> evs[i] == pre[i] && evs[..i] == pre[..i];
      if Navigate(DashboardPath) in Run(s, evs).effects {
        if !here {
          var i :| LoginSubmitAt(s, pre, i);
          assert LoginSubmitAt(s, evs, i);
        } else {
          assert LoginSubmitAt(s, evs, n);
        }
      } else {
        forall i | 0 <= i < |evs|
          ensures !LoginSubmitAt(s, evs, i)
        {
          if i == n {
            assert evs[..i] == pre;
          } else {
            assert evs[..i] == pre[..i];
            assert !LoginSubmitAt(s, pre, i);
          }
        }
      }
    }
  }

  /** Moving to the dashboard unmounts the form, so a session the user can
      actually perform has no event after a login-ready submission except
      possibly at its very end. */
  predicate Mounted(s: State, evs: seq<Event>)
  {
    forall i :: 0 <= i < |evs| - 1 ==> !LoginSubmitAt(s, evs, i)
  }

  /** In a session the form stays mounted for, the move to the dashboard
      happens at most once and only as the last effect. */
  lemma {:induction false} MountedNavigatesLast(s: State, evs: seq<Event>)
    requires Mounted(s, evs)
    ensures multiset(Run(s, evs).effects)[Navigate(DashboardPath)] <= 1
    ensures Navigate(DashboardPath) in Run(s, evs).effects ==>
              Run(s, evs).effects[|Run(s, evs).effects| - 1] == Navigate(DashboardPath)
  {
    if evs != [] {
      var n := |evs| - 1;
      var pre := evs[..n];
      assert evs == pre + [evs[n]];
      RunSnoc(s, pre, evs[n]);
      forall i | 0 <= i < |pre|
        ensures !LoginSubmitAt(s, pre, i)
      {
        assert evs[..i] == pre[..i];
        assert !LoginSubmitAt(s, evs, i);
      }
      NavigateIffReadySubmit(s, pre);
      var before := Run(s, pre).effects;
      var last := Step(Run(s, pre).next, evs[n]).effects;
      assert Navigate(DashboardPath) !in before;
      assert multiset(before)[Navigate(DashboardPath)] == 0;
      assert multiset(Run(s, evs).effects) == multiset(before) + multiset(last);
      assert multiset(last)[Navigate(DashboardPath)] <= 1;
    }
  }

  /** The events of opening sign-up and filling in all four fields, the
      password twice. */
  function SignupTyping(name: string, user: string, pass: string): (evs: seq<Event>)
  {
    [ModeToggled, FieldChanged(Name, name), FieldChanged(Username, user),
     FieldChanged(Password, pass), FieldChanged(ConfirmPassword, pass)]
  }

  /** The events of typing credentials into the login form and submitting. */
  function LoginTyping(user: string, pass: string): (evs: seq<Event>)
  {
    [FieldChanged(Username, user), FieldChanged(Password, pass), Submitted]
  }

  /** Opening sign-up and filling in all four fields leaves them on screen
      with no effect yet. */
  lemma SignupFilled(name: string, user: string, pass: string)
    ensures Run(Initial, SignupTyping(name, user, pass))
            == Reaction(State(Signup, Form(name, user, pass, pass)), [])
  {
    var evs := SignupTyping(name, user, pass);
    assert evs[..1] == [] + [ModeToggled];
    RunSnoc(Initial, [], ModeToggled);
    assert Run(Initial, evs[..1]) == Reaction(State(Signup, EmptyForm), []);
    assert evs[..2] == evs[..1] + [evs[1]];
    RunSnoc(Initial, evs[..1], evs[1]);
    assert Run(Initial, evs[..2]).next == State(Signup, Form(name, "", "", "")) by {
      FormExtensionality(Run(Initial, evs[..2]).next.form, Form(name, "", "", ""));
    }
    assert evs[..3] == evs[..2] + [evs[2]];
    RunSnoc(Initial, evs[..2], evs[2]);
    assert Run(Initial, evs[..3]).next == State(Signup, Form(name, user, "", "")) by {
      FormExtensionality(Run(Initial, evs[..3]).next.form, Form(name, user, "", ""));
    }
    assert evs[..4] == evs[..3] + [evs[3]];
    RunSnoc(Initial, evs[..3], evs[3]);
    assert Run(Initial, evs[..4]).next == State(Signup, Form(name, user, pass, "")) by {
      FormExtensionality(Run(Initial, evs[..4]).next.form, Form(name, user, pass, ""));
    }
    assert evs == evs[..4] + [evs[4]];
    RunSnoc(Initial, evs[..4], evs[4]);
    FormExtensionality(Run(Initial, evs).next.form, Form(name, user, pass, pass));
    QuietRunMode(Initial, evs);
  }

  /** Opening sign-up, filling in all four fields with matching passwords
      and submitting creates the account and returns to the initial state. */
  lemma SignupWalk(name: string, user: string, pass: string)
    requires name != "" && user != "" && pass != ""
    ensures Run(Initial, SignupTyping(name, user, pass) + [Submitted])
            == Reaction(Initial, [Alert(SignupSucceeded)])
  {
    var filled := State(Signup, Form(name, user, pass, pass));
    SignupFilled(name, user, pass);
    AllFilledByMode(filled);
    assert SignupReady(filled);
    assert Step(filled, Submitted) == Reaction(Initial, [Alert(SignupSucceeded)]);
    RunSnoc(Initial, SignupTyping(name, user, pass), Submitted);
  }

  /** Typing a username and password into the initial form and submitting
      reaches the dashboard. */
  lemma LoginWalk(user: string, pass: string)
    requires user != "" && pass != ""
    ensures Run(Initial, LoginTyping(user, pass))
            == Reaction(State(Login, Form("", user, pass, "")), [Navigate(DashboardPath)])
  {
    var evs := LoginTyping(user, pass);
    assert evs[..1] == [] + [evs[0]];
    RunSnoc(Initial, [], evs[0]);
    assert Run(Initial, evs[..1]).effects == [];
    assert Run(Initial, evs[..1]).next == State(Login, Form("", user, "", "")) by {
      FormExtensionality(Run(Initial, evs[..1]).next.form, Form("", user, "", ""));
    }
    assert evs[..2] == evs[..1] + [evs[1]];
    RunSnoc(Initial, evs[..1], evs[1]);
    var typed := State(Login, Form("", user, pass, ""));
    assert Run(Initial, evs[..2]).effects == [];
    assert Run(Initial, evs[..2]).next == typed by {
      FormExtensionality(Run(Initial, evs[..2]).next.form, typed.form);
    }
    AllFilledByMode(typed);
    assert Step(typed, Submitted) == Reaction(typed, [Navigate(DashboardPath)]);
    assert evs == evs[..2] + [Submitted];
    RunSnoc(Initial, evs[..2], Submitted);
  }

  /** Signing up and then logging in: the account is created, then the
      dashboard is reached with any non-empty credentials, the ones just
      signed up or not, because sign-up stores nothing. */
  lemma SignupThenLogin(name: string, user: string, pass: string, user': string, pass': string)
    requires name != "" && user != "" && pass != ""
    requires user' != "" && pass' != ""
    ensures Run(Initial, SignupTyping(name, user, pass) + [Submitted] + LoginTyping(user', pass')).effects
            == [Alert(SignupSucceeded), Navigate(DashboardPath)]
  {
    var signup, login := SignupTyping(name, user, pass) + [Submitted], LoginTyping(user', pass');
    SignupWalk(name, user, pass);
    assert Run(Initial, signup).next == Initial;
    LoginWalk(user', pass');
    RunConcat(Initial, signup, login);
    assert Run(Initial, signup + login).effects == [Alert(SignupSucceeded)] + [Navigate(DashboardPath)];
  }
}
