/** The password validator. A password whose entropy reaches the minimum is
    accepted; otherwise each character is classified by the first of six
    character sets that contains it, and the error lists, in a fixed order,
    the character classes that are missing and the low entropy. The entropy
    is a floating-point computation outside this model: it is a parameter,
    as are the six character sets. */
module PasswordValidator {
  import opened Common
  import opened PasswordErrors

  /** The six character sets, in the order the validator tries them. */
  datatype CharSets = CharSets(
    replace: set<char>, sep: set<char>, otherSpecial: set<char>,
    lower: set<char>, upper: set<char>, digits: set<char>)

  datatype CharClass = Replace | Sep | OtherSpecial | Lower | Upper | Digit

  /** The class of a character: the first set that contains it; a
      character in none of them has no class. */
  function ClassOf(c: char, sets: CharSets): (k: Option<CharClass>)
    ensures k == Some(Replace) <==> c in sets.replace
    ensures k == Some(Sep) <==> c !in sets.replace && c in sets.sep
    ensures k == Some(OtherSpecial) <==> c !in sets.replace && c !in sets.sep && c in sets.otherSpecial
    ensures k == Some(Lower) <==>
      c !in sets.replace && c !in sets.sep && c !in sets.otherSpecial && c in sets.lower
    ensures k == Some(Upper) <==>
      c !in sets.replace && c !in sets.sep && c !in sets.otherSpecial && c !in sets.lower && c in sets.upper
    ensures k == Some(Digit) <==>
      c !in sets.replace && c !in sets.sep && c !in sets.otherSpecial && c !in sets.lower && c !in sets.upper
      && c in sets.digits
    ensures k.None? <==>
      c !in sets.replace && c !in sets.sep && c !in sets.otherSpecial
      && c !in sets.lower && c !in sets.upper && c !in sets.digits
  {
    if c in sets.replace then Some(Replace)
    else if c in sets.sep then Some(Sep)
    else if c in sets.otherSpecial then Some(OtherSpecial)
    else if c in sets.lower then Some(Lower)
    else if c in sets.upper then Some(Upper)
    else if c in sets.digits then Some(Digit)
    else None
  }

  /** Some character of the password is of class `k`. */
  predicate Has(password: string, sets: CharSets, k: CharClass)
  {
    exists i :: 0 <= i < |password| && ClassOf(password[i], sets) == Some(k)
  }

  /** The six flags of the scan. */
  datatype Flags = Flags(
    hasReplace: bool, hasSep: bool, hasOtherSpecial: bool,
    hasLower: bool, hasUpper: bool, hasDigits: bool)
  {
    function Get(k: CharClass): bool
    {
      match k
      case Replace => hasReplace
      case Sep => hasSep
      case OtherSpecial => hasOtherSpecial
      case Lower => hasLower
      case Upper => hasUpper
      case Digit => hasDigits
    }
  }

  /** The flags after scanning `password` character by character. */
  function Scan(password: string, sets: CharSets): Flags
  {
    if password == [] then Flags(false, false, false, false, false, false)
    else
      var f := Scan(password[..|password| - 1], sets);
      match ClassOf(password[|password| - 1], sets)
      case None => f
      case Some(Replace) => f.(hasReplace := true)
      case Some(Sep) => f.(hasSep := true)
      case Some(OtherSpecial) => f.(hasOtherSpecial := true)
      case Some(Lower) => f.(hasLower := true)
      case Some(Upper) => f.(hasUpper := true)
      case Some(Digit) => f.(hasDigits := true)
  }

  /** A flag of the scan is set exactly when some character is of its
      class. */
  lemma {:induction false} ScanFindsClasses(password: string, sets: CharSets, k: CharClass)
    ensures Scan(password, sets).Get(k) <==> Has(password, sets, k)
    decreases |password|
  {
    if password != [] {
      var init := password[..|password| - 1];
      ScanFindsClasses(init, sets, k);
      if Has(init, sets, k) {
        var i :| 0 <= i < |init| && ClassOf(init[i], sets) == Some(k);
        assert password[i] == init[i];
      }
      if Has(password, sets, k) {
        var i :| 0 <= i < |password| && ClassOf(password[i], sets) == Some(k);
        if i < |init| { assert init[i] == password[i]; }
      }
    }
  }

  /** The reasons a password below the minimum entropy is rejected, in
      order: special characters (unless all three special classes occur),
      lower case, upper case, digits, and the entropy. */
  function ExpectedReasons(password: string, sets: CharSets, entropy: real, minEntropy: real): seq<PwError>
  {
    (if !Has(password, sets, OtherSpecial) || !Has(password, sets, Sep) || !Has(password, sets, Replace)
     then [NoSpecialChars] else [])
    + (if !Has(password, sets, Lower) then [NoLowercase] else [])
    + (if !Has(password, sets, Upper) then [NoUppercase] else [])
    + (if !Has(password, sets, Digit) then [NoDigits] else [])
    + (if entropy < minEntropy then [LowEntropy] else [])
  }

  /** The reasons as the error stores them: none of them nil. */
  function Present(reasons: seq<PwError>): (r: seq<Option<PwError>>)
    ensures |r| == |reasons|
    ensures forall i :: 0 <= i < |r| ==> r[i] == Some(reasons[i])
  {
    seq(|reasons|, i requires 0 <= i < |reasons| => Some(reasons[i]))
  }

  /** `Validate`: no error when the entropy reaches the minimum; otherwise
      a composite error with base "password validation failed" and the
      expected reasons. */
  method Validate(password: string, entropy: real, minEntropy: real, sets: CharSets)
    returns (err: Option<PasswordError>)
    ensures entropy >= minEntropy <==> err.None?
    ensures err.Some? ==>
      err.value == PasswordError(Some(PasswordValidatorFailed),
                                 Present(ExpectedReasons(password, sets, entropy, minEntropy)))
  {
    if entropy >= minEntropy {
      return None;
    }
    var hasReplace, hasSep, hasOtherSpecial := false, false, false;
    var hasLower, hasUpper, hasDigits := false, false, false;
    for i := 0 to |password|
      invariant Flags(hasReplace, hasSep, hasOtherSpecial, hasLower, hasUpper, hasDigits)
                == Scan(password[..i], sets)
    {
      assert password[..i + 1][..i] == password[..i];
      var c := password[i];
      if c in sets.replace {
        hasReplace := true;
      } else if c in sets.sep {
        hasSep := true;
      } else if c in sets.otherSpecial {
        hasOtherSpecial := true;
      } else if c in sets.lower {
        hasLower := true;
      } else if c in sets.upper {
        hasUpper := true;
      } else if c in sets.digits {
        hasDigits := true;
      }
    }
    assert password[..|password|] == password;
    ScanFindsClasses(password, sets, Replace);
    ScanFindsClasses(password, sets, Sep);
    ScanFindsClasses(password, sets, OtherSpecial);
    ScanFindsClasses(password, sets, Lower);
    ScanFindsClasses(password, sets, Upper);
    ScanFindsClasses(password, sets, Digit);

    var errs: seq<PwError> := [];
    if !hasOtherSpecial || !hasSep || !hasReplace {
      errs := errs + [NoSpecialChars];
    }
    if !hasLower {
      errs := errs + [NoLowercase];
    }
    if !hasUpper {
      errs := errs + [NoUppercase];
    }
    if !hasDigits {
      errs := errs + [NoDigits];
    }
    if entropy < minEntropy {
      errs := errs + [LowEntropy];
    }
    if |errs| == 0 {
      return None;
    }
    return Some(PasswordError(Some(PasswordValidatorFailed), Present(errs)));
  }

  /** The position of a reason in the validator's fixed order. */
  function Rank(e: PwError): int
  {
    match e
    case NoSpecialChars => 0
    case NoLowercase => 1
    case NoUppercase => 2
    case NoDigits => 3
    case LowEntropy => 4
    case _ => 5
  }

  /** Below the minimum entropy the low-entropy reason is always present
      and always last, so the list is never empty and the "no reasons"
      exit after the checks cannot be taken; the reasons come in the fixed
      order without repetition, and "password too short" is never among
      them. */
  lemma RejectionShape(password: string, sets: CharSets, entropy: real, minEntropy: real)
    requires entropy < minEntropy
    ensures var rs := ExpectedReasons(password, sets, entropy, minEntropy);
      && 1 <= |rs| <= 5
      && rs[|rs| - 1] == LowEntropy
      && (forall i, j :: 0 <= i < j < |rs| ==> Rank(rs[i]) < Rank(rs[j]))
      && TooShort !in rs && PasswordValidatorFailed !in rs
  {
  }

  /** A password with a character of each of the six classes, still below
      the minimum entropy, is rejected for its entropy alone. */
  lemma AllClassesOnlyEntropy(password: string, sets: CharSets, entropy: real, minEntropy: real)
    requires entropy < minEntropy
    requires forall k :: Has(password, sets, k)
    ensures ExpectedReasons(password, sets, entropy, minEntropy) == [LowEntropy]
  {
    assert Has(password, sets, Replace) && Has(password, sets, Sep) && Has(password, sets, OtherSpecial);
    assert Has(password, sets, Lower) && Has(password, sets, Upper) && Has(password, sets, Digit);
  }

  /** A character in two sets counts only for the first: with the digits
      also listed among the separators, a password of digits is missing
      digits. */
  lemma FirstSetWins(password: string, sets: CharSets, entropy: real, minEntropy: real)
    requires entropy < minEntropy && password != []
    requires forall i :: 0 <= i < |password| ==> password[i] in sets.sep && password[i] in sets.digits
    ensures NoDigits in ExpectedReasons(password, sets, entropy, minEntropy)
  {
    assert !Has(password, sets, Digit);
  }

  /** The error of a rejected password unwraps to the validation sentinel,
      and its message is that sentinel's text followed by the reasons. */
  lemma RejectionUnwrapsAndReads(password: string, sets: CharSets, entropy: real, minEntropy: real)
    requires entropy < minEntropy
    ensures var e := PasswordError(Some(PasswordValidatorFailed),
                                   Present(ExpectedReasons(password, sets, entropy, minEntropy)));
      && Unwrap(e) == Some(PasswordValidatorFailed)
      && Message(e) == "password validation failed: "
                       + Join(ReasonTexts(e.reasons), ", ")
      && |ReasonTexts(e.reasons)| == |ExpectedReasons(password, sets, entropy, minEntropy)|
  {
    var rs := ExpectedReasons(password, sets, entropy, minEntropy);
    RejectionShape(password, sets, entropy, minEntropy);
  }

  /** `strings.Join` of five parts. */
  lemma JoinFive(a: string, b: string, c: string, d: string, e: string, sep: string)
    ensures Join([a, b, c, d, e], sep) == a + sep + b + sep + c + sep + d + sep + e
  {
    assert [a, b][..1] == [a];
    assert Join([a, b], sep) == a + sep + b;
    assert [a, b, c][..2] == [a, b];
    assert Join([a, b, c], sep) == a + sep + b + sep + c;
    assert [a, b, c, d][..3] == [a, b, c];
    assert Join([a, b, c, d], sep) == a + sep + b + sep + c + sep + d;
    assert [a, b, c, d, e][..4] == [a, b, c, d];
  }

  /** The empty password below the minimum is missing everything. */
  lemma EmptyPasswordReasons(sets: CharSets, entropy: real, minEntropy: real)
    requires entropy < minEntropy
    ensures ExpectedReasons("", sets, entropy, minEntropy)
         == [NoSpecialChars, NoLowercase, NoUppercase, NoDigits, LowEntropy]
  {
  }

  /** The message of a rejection with five reasons: the sentinel's text,
      ": ", and the five reasons' texts joined by ", ". */
  lemma FiveReasonMessage(rs: seq<PwError>)
    requires |rs| == 5
    ensures Message(PasswordError(Some(PasswordValidatorFailed), Present(rs)))
         == PasswordErrors.Text(PasswordValidatorFailed) + ": "
            + Join([PasswordErrors.Text(rs[0]), PasswordErrors.Text(rs[1]), PasswordErrors.Text(rs[2]),
                    PasswordErrors.Text(rs[3]), PasswordErrors.Text(rs[4])], ", ")
  {
    var p := Present(rs);
    ReasonTextsOfPresent(p);
    assert ReasonTexts(p) == [PasswordErrors.Text(rs[0]), PasswordErrors.Text(rs[1]), PasswordErrors.Text(rs[2]),
                              PasswordErrors.Text(rs[3]), PasswordErrors.Text(rs[4])];
  }

  /** The message of the empty password's rejection lists every reason:
      "password validation failed: missing special characters, missing
      lowercase letters, missing uppercase letters, missing digits, password
      entropy too low". */
  lemma EmptyPasswordMessage(sets: CharSets, entropy: real, minEntropy: real)
    requires entropy < minEntropy
    ensures Message(PasswordError(Some(PasswordValidatorFailed),
                                  Present(ExpectedReasons("", sets, entropy, minEntropy))))
         == "password validation failed: "
            + Join(["missing special characters", "missing lowercase letters", "missing uppercase letters",
                    "missing digits", "password entropy too low"], ", ")
  {
    EmptyPasswordReasons(sets, entropy, minEntropy);
    FiveReasonMessage([NoSpecialChars, NoLowercase, NoUppercase, NoDigits, LowEntropy]);
  }
}
