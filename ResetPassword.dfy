/** The new-password form: four live checks on the typed password, and a submit that does nothing
    until all four are met. */
module ResetPassword {
  import Text

  datatype Check = Check(caption: string, met: bool)

  /** `/[…]/.test(s)` for a pattern that is one character class: some character of `s` is in it. */
  function TestClass(s: string, inClass: char -> bool): (found: bool)
    ensures found <==> exists i :: 0 <= i < |s| && inClass(s[i])
  {
    if s == [] then false
    else if inClass(s[0]) then true
    else
      var rest := TestClass(s[1..], inClass);
      assert rest <==> exists i :: 1 <= i < |s| && inClass(s[i]) by {
        if rest {
          var i :| 0 <= i < |s[1..]| && inClass(s[1..][i]);
          assert inClass(s[i + 1]);
        } else {
          forall i | 1 <= i < |s| ensures !inClass(s[i]) {
            assert s[i] == s[1..][i - 1];
          }
        }
      }
      rest
  }

  /** The class `[^A-Za-z0-9]`. */
  predicate IsSpecial(c: char) {
    !Text.IsAlnum(c)
  }

  /** `passwordChecks(password)`. */
  function PasswordChecks(p: string): (cs: seq<Check>)
    ensures |cs| == 4
    ensures cs[0].caption == "At least 8 characters" && cs[1].caption == "Uppercase letter"
    ensures cs[2].caption == "Number" && cs[3].caption == "Special character"
    ensures cs[0].met <==> |p| >= 8
    ensures cs[1].met <==> exists i :: 0 <= i < |p| && 'A' <= p[i] <= 'Z'
    ensures cs[2].met <==> exists i :: 0 <= i < |p| && '0' <= p[i] <= '9'
    ensures cs[3].met <==> exists i :: 0 <= i < |p| && !Text.IsAlnum(p[i])
  {
    [ Check("At least 8 characters", |p| >= 8),
      Check("Uppercase letter", TestClass(p, Text.IsUpper)),
      Check("Number", TestClass(p, Text.IsDigit)),
      Check("Special character", TestClass(p, IsSpecial)) ]
  }

  /** `checks.every(c => c.met)`. */
  function Every(cs: seq<Check>): (all: bool)
    ensures all <==> forall i :: 0 <= i < |cs| ==> cs[i].met
  {
    if cs == [] then true
    else
      var rest := Every(cs[1..]);
      assert rest <==> forall i :: 1 <= i < |cs| ==> cs[i].met by {
        if rest {
          forall i | 1 <= i < |cs| ensures cs[i].met {
            assert cs[i] == cs[1..][i - 1];
          }
        }
      }
      cs[0].met && rest
  }

  function AllMet(p: string): bool {
    Every(PasswordChecks(p))
  }

  /** `allMet` holds exactly when the password is at least 8 long and has an upper-case letter, a
      digit and a character that is neither. */
  lemma AllMetIff(p: string)
    ensures AllMet(p) <==>
      && |p| >= 8
      && (exists i :: 0 <= i < |p| && Text.IsUpper(p[i]))
      && (exists i :: 0 <= i < |p| && Text.IsDigit(p[i]))
      && (exists i :: 0 <= i < |p| && IsSpecial(p[i]))
  {
    var cs := PasswordChecks(p);
    assert AllMet(p) <==> cs[0].met && cs[1].met && cs[2].met && cs[3].met;
  }

  /** Typing more characters never turns a met check into an unmet one. */
  lemma ChecksMonotone(p: string, more: string)
    ensures forall k :: 0 <= k < 4 && PasswordChecks(p)[k].met ==> PasswordChecks(p + more)[k].met
  {
    var q := p + more;
    assert forall i :: 0 <= i < |p| ==> q[i] == p[i];
  }

  lemma AllMetMonotone(p: string, more: string)
    requires AllMet(p)
    ensures AllMet(p + more)
  {
    ChecksMonotone(p, more);
  }

  datatype SubmitAction = Ignore | RequestUpdate(password: string)

  /** `handleSubmit`: without every check met nothing happens; otherwise the password is sent to the
      authentication service. */
  function HandleSubmit(p: string): (a: SubmitAction)
    ensures a.RequestUpdate? <==> AllMet(p)
    ensures a.RequestUpdate? ==> a.password == p
  {
    if !AllMet(p) then Ignore else RequestUpdate(p)
  }

  /** A password with all four kinds of character is accepted. */
  lemma AcceptedExample()
    ensures HandleSubmit("Passw0rd!").RequestUpdate?
  {
    var good := "Passw0rd!";
    assert |good| == 9;
    assert Text.IsUpper(good[0]) && Text.IsDigit(good[5]) && IsSpecial(good[8]);
    AllMetIff(good);
  }

  /** A password without an upper-case letter is ignored, however long. */
  lemma RejectedExample()
    ensures HandleSubmit("passw0rd!") == Ignore
  {
    var bad := "passw0rd!";
    assert !TestClass(bad, Text.IsUpper) by {
      forall i | 0 <= i < |bad| ensures !Text.IsUpper(bad[i]) {
      }
    }
    assert !PasswordChecks(bad)[1].met;
  }
}
