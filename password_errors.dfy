/** The password validator's error values: seven sentinel errors and a
    composite error that carries a base error and a list of reasons. A
    reason or the base may be nil (`None`); the composite's message skips
    nil reasons. */
module PasswordErrors {
  import opened Common

  /** The sentinel errors of the package. */
  datatype PwError =
    | PasswordValidatorFailed
    | TooShort
    | NoUppercase
    | NoLowercase
    | NoDigits
    | NoSpecialChars
    | LowEntropy

  function Text(e: PwError): string
  {
    match e
    case PasswordValidatorFailed => "password validation failed"
    case TooShort => "password too short"
    case NoUppercase => "missing uppercase letters"
    case NoLowercase => "missing lowercase letters"
    case NoDigits => "missing digits"
    case NoSpecialChars => "missing special characters"
    case LowEntropy => "password entropy too low"
  }

  /** `%v` of an error value: its text, or "<nil>" for nil. */
  function Format(e: Option<PwError>): string
  {
    match e
    case None => "<nil>"
    case Some(x) => Text(x)
  }

  /** The composite error. */
  datatype PasswordError = PasswordError(baseErr: Option<PwError>, reasons: seq<Option<PwError>>)

  /** The texts of the non-nil reasons, in order. */
  function ReasonTexts(reasons: seq<Option<PwError>>): (r: seq<string>)
    ensures |r| <= |reasons|
    ensures (forall i :: 0 <= i < |reasons| ==> reasons[i].Some?) ==> |r| == |reasons|
    ensures (forall i :: 0 <= i < |reasons| ==> reasons[i].None?) ==> r == []
  {
    if reasons == [] then []
    else
      var init := ReasonTexts(reasons[..|reasons| - 1]);
      match reasons[|reasons| - 1]
      case None => init
      case Some(e) => init + [Text(e)]
  }

  /** `strings.Join`: the parts with `sep` between consecutive ones. */
  function Join(parts: seq<string>, sep: string): (r: string)
    ensures parts == [] ==> r == ""
    ensures |parts| == 1 ==> r == parts[0]
  {
    if parts == [] then ""
    else if |parts| == 1 then parts[0]
    else Join(parts[..|parts| - 1], sep) + sep + parts[|parts| - 1]
  }

  /** The message of a composite error: the base alone when there are no
      reasons, otherwise the base, ": " and the non-nil reasons joined by
      ", ". */
  function Message(e: PasswordError): string
  {
    if |e.reasons| == 0 then Format(e.baseErr)
    else Format(e.baseErr) + ": " + Join(ReasonTexts(e.reasons), ", ")
  }

  /** `Error`: the loop that collects the non-nil reasons' texts. */
  method Error(e: PasswordError) returns (s: string)
    ensures s == Message(e)
  {
    if |e.reasons| == 0 {
      return Format(e.baseErr);
    }
    var reasonStrs: seq<string> := [];
    var i := 0;
    while i < |e.reasons|
      invariant 0 <= i <= |e.reasons|
      invariant reasonStrs == ReasonTexts(e.reasons[..i])
    {
      var r := e.reasons[i];
      assert e.reasons[..i + 1][..i] == e.reasons[..i];
      if r.Some? {
        reasonStrs := reasonStrs + [Text(r.value)];
      }
      i := i + 1;
    }
    assert e.reasons[..|e.reasons|] == e.reasons;
    s := Format(e.baseErr) + ": " + Join(reasonStrs, ", ");
  }

  /** `Unwrap`: the base error, which is also the head of the error's
      message, so matching on the sentinel and reading the text agree. */
  function Unwrap(e: PasswordError): (r: Option<PwError>)
    ensures r == e.baseErr
    ensures Format(r) <= Message(e)
  {
    e.baseErr
  }

  /** `ReasonsList`: the texts of the non-nil reasons, in order. */
  method ReasonsList(e: PasswordError) returns (list: seq<string>)
    ensures list == ReasonTexts(e.reasons)
  {
    list := [];
    for i := 0 to |e.reasons|
      invariant list == ReasonTexts(e.reasons[..i])
    {
      assert e.reasons[..i + 1][..i] == e.reasons[..i];
      if e.reasons[i].Some? {
        list := list + [Text(e.reasons[i].value)];
      }
    }
    assert e.reasons[..|e.reasons|] == e.reasons;
  }

  /** Collecting the texts of two lists one after the other gives the texts
      of their concatenation. */
  lemma {:induction false} ReasonTextsAppend(a: seq<Option<PwError>>, b: seq<Option<PwError>>)
    ensures ReasonTexts(a + b) == ReasonTexts(a) + ReasonTexts(b)
    decreases |b|
  {
    if b == [] {
      assert a + b == a;
    } else {
      var b' := b[..|b| - 1];
      assert (a + b)[..|a + b| - 1] == a + b';
      ReasonTextsAppend(a, b');
    }
  }

  /** A nil reason anywhere in the list leaves no trace in the texts. */
  lemma NilReasonSkipped(a: seq<Option<PwError>>, b: seq<Option<PwError>>)
    ensures ReasonTexts(a + [None] + b) == ReasonTexts(a + b)
  {
    ReasonTextsAppend(a + [None], b);
    ReasonTextsAppend(a, [None]);
    ReasonTextsAppend(a, b);
    var nil: seq<Option<PwError>> := [None];
    assert nil[..0] == [];
  }

  /** With no nil reasons, the i-th text is the text of the i-th reason. */
  lemma {:induction false} ReasonTextsOfPresent(reasons: seq<Option<PwError>>)
    requires forall i :: 0 <= i < |reasons| ==> reasons[i].Some?
    ensures |ReasonTexts(reasons)| == |reasons|
    ensures forall i :: 0 <= i < |reasons| ==> ReasonTexts(reasons)[i] == Text(reasons[i].value)
    decreases |reasons|
  {
    if reasons != [] {
      ReasonTextsOfPresent(reasons[..|reasons| - 1]);
    }
  }

  /** The message always starts with the base error's text; "no reasons"
      and "only nil reasons" differ: the second adds ": " with nothing
      after it. */
  lemma MessageShape(base: Option<PwError>, nils: nat)
    requires nils > 0
    ensures Message(PasswordError(base, [])) == Format(base)
    ensures Message(PasswordError(base, seq(nils, _ => None))) == Format(base) + ": "
  {
  }

  /** One reason: the base, ": " and that reason. */
  lemma SingleReasonMessage(base: Option<PwError>, reason: PwError)
    ensures Message(PasswordError(base, [Some(reason)])) == Format(base) + ": " + Text(reason)
  {
    assert ReasonTexts([Some(reason)]) == [Text(reason)] by {
      var one: seq<Option<PwError>> := [Some(reason)];
      assert one[..0] == [];
    }
  }
}
