/**
 * The citizen login page (app/login/page.tsx): the CNIC input sanitiser and the
 * submit handler. The session context and the router are outside this model;
 * the handler records its calls to them, in order, as effects.
 */
module LoginPage {
  import opened Types
  import opened Text
  import Seqs
  import Auth

  const CnicLength := 13
  const DashboardPath := "/dashboard"

  /** The digits of `s`, in order: `s.replace(/\D/g, "")`. */
  function Digits(s: string): string
  {
    Seqs.Filter(s, IsDigit)
  }

  /** `value.replace(/\D/g, "").slice(0, 13)` */
  function SanitizeCnic(input: string): (cnic: string)
    ensures forall i :: 0 <= i < |cnic| ==> IsDigit(cnic[i])
    ensures |cnic| <= CnicLength
    ensures cnic <= Digits(input)
    ensures |cnic| == if |Digits(input)| < CnicLength then |Digits(input)| else CnicLength
  {
    var digits := Digits(input);
    if |digits| <= CnicLength then digits else digits[..CnicLength]
  }

  /** The sanitised CNIC keeps the input's digits in their original order. */
  lemma SanitizeCnicKeepsOrder(input: string)
    ensures Seqs.IsSubsequence(SanitizeCnic(input), input)
  {
    var digits := Digits(input);
    Seqs.FilterIsSubsequence(input, IsDigit);
    Seqs.PrefixIsSubsequence(digits, |SanitizeCnic(input)|);
    assert SanitizeCnic(input) == digits[..|SanitizeCnic(input)|];
    Seqs.SubsequenceTransitive(SanitizeCnic(input), digits, input);
  }

  /** Sanitising a sanitised CNIC changes nothing. */
  lemma SanitizeCnicIdempotent(input: string)
    ensures SanitizeCnic(SanitizeCnic(input)) == SanitizeCnic(input)
  {
    var cnic := SanitizeCnic(input);
    Seqs.FilterKeepsAll(cnic, IsDigit);
  }

  /** A call the handler makes outside the page. */
  datatype Effect = SessionLogin(user: User) | Navigate(path: string)

  class LoginForm {
    var cnic: string
    var password: string
    var error: string
    var isLoading: bool
    /** The calls made to the session context and the router, oldest first. */
    var effects: seq<Effect>

    constructor ()
      ensures cnic == "" && password == "" && error == "" && !isLoading && effects == []
    {
      cnic := "";
      password := "";
      error := "";
      isLoading := false;
      effects := [];
    }

    method OnCnicInput(raw: string)
      modifies this`cnic
      ensures cnic == SanitizeCnic(raw)
    {
      cnic := SanitizeCnic(raw);
    }

    method OnPasswordInput(raw: string)
      modifies this`password
      ensures password == raw
    {
      password := raw;
    }

    /**
     * `handleSubmit` against a snapshot `rows` of the users table. An error from the
     * login is shown and nothing else happens; a returned user is handed to the
     * session before navigating to the dashboard. Loading ends either way.
     */
    method HandleSubmit(rows: seq<Auth.UserRow>, sha: string -> Auth.Digest, fault: bool)
      modifies this`error, this`isLoading, this`effects
      ensures !isLoading
      ensures var result := Auth.Login(rows, cnic, password, sha, fault);
              && (result.user.Some? ==>
                    error == "" && effects == old(effects) + [SessionLogin(result.user.value), Navigate(DashboardPath)])
              && (result.user.None? ==>
                    error == Auth.InvalidCredentials && effects == old(effects))
    {
      error := "";
      isLoading := true;
      var result := Auth.Login(rows, cnic, password, sha, fault);
      if Truthy(result.error) {
        error := result.error.value;
      } else if result.user.Some? {
        effects := effects + [SessionLogin(result.user.value)];
        effects := effects + [Navigate(DashboardPath)];
      }
      isLoading := false;
    }
  }
}
