/** The login error values and the mapping of login validation failures to
    a field → message map. */
module AuthErrors {
  import opened Common

  /** The message for a failure on `field`, for the two fields the login
      form reports; any other field is ignored. Which rule failed does not
      matter. */
  function MessageFor(field: string): Option<string>
  {
    if field == "Email" then Some("Email is required")
    else if field == "Password" then Some("Password is required")
    else None
  }

  /** The map after recording the failures `errs` one after the other. Its
      keys are among "Email" and "Password", and each key maps to
      "<field> is required". */
  function FieldMessages(errs: seq<FieldError>): (m: map<string, string>)
    ensures m.Keys <= {"Email", "Password"}
    ensures forall f :: f in m ==> m[f] == f + " is required"
  {
    if errs == [] then map[]
    else
      var m := FieldMessages(errs[..|errs| - 1]);
      var f := errs[|errs| - 1].field;
      match MessageFor(f)
      case None => m
      case Some(msg) => m[f := msg]
  }

  /** A field is in the map exactly when it is "Email" or "Password" and
      some failure concerns it. */
  lemma {:induction false} FieldMessagesKeys(errs: seq<FieldError>, f: string)
    ensures f in FieldMessages(errs) <==>
      (f == "Email" || f == "Password") && exists i :: 0 <= i < |errs| && errs[i].field == f
  {
    if errs != [] {
      var init := errs[..|errs| - 1];
      FieldMessagesKeys(init, f);
      if exists i :: 0 <= i < |init| && init[i].field == f {
        var i :| 0 <= i < |init| && init[i].field == f;
        assert errs[i] == init[i];
      }
      if exists i :: 0 <= i < |errs| && errs[i].field == f {
        var i :| 0 <= i < |errs| && errs[i].field == f;
        if i < |init| { assert init[i] == errs[i]; }
      }
    }
  }

  /** The map `LoginValidateError` builds: for a list of field failures,
      the map built by visiting them in order; for any other validation
      error, the empty map. */
  function ValidationMessages(err: ValidateError): map<string, string>
  {
    if err.ValidationErrors? then FieldMessages(err.failures) else map[]
  }

  /** `LoginValidateError`, the loop over the failures. */
  method LoginValidateError(err: ValidateError) returns (messages: map<string, string>)
    ensures messages == ValidationMessages(err)
  {
    messages := map[];
    if err.ValidationErrors? {
      var errs := err.failures;
      var i := 0;
      while i < |errs|
        invariant 0 <= i <= |errs|
        invariant messages == FieldMessages(errs[..i])
      {
        var field := errs[i].field;
        if field == "Email" {
          messages := messages[field := "Email is required"];
        } else if field == "Password" {
          messages := messages[field := "Password is required"];
        }
        assert errs[..i + 1][..i] == errs[..i];
        i := i + 1;
      }
      assert errs[..|errs|] == errs;
    }
  }
}
