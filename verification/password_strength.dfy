/**
 The password-strength meter of the registration form
 (frontend/src/pages/Register.jsx): a score from 0 to 4 built from length
 and character-class checks, the word shown for it, and the colour of the
 four bars.
 */
module PasswordStrength {
  import opened Js

  predicate HasLower(s: string) { exists k :: 0 <= k < |s| && IsLower(s[k]) }
  predicate HasUpper(s: string) { exists k :: 0 <= k < |s| && IsUpper(s[k]) }
  predicate HasDigit(s: string) { exists k :: 0 <= k < |s| && IsDigit(s[k]) }
  /** `/[^a-zA-Z0-9]/` */
  predicate HasSymbol(s: string) { exists k :: 0 <= k < |s| && !IsAlphanumeric(s[k]) }

  function Point(b: bool): nat { if b then 1 else 0 }

  /** The checks met: at least 8 characters, at least 12, both cases, a
      digit, and a character that is neither letter nor digit. */
  function Criteria(s: string): nat {
    Point(|s| >= 8) + Point(|s| >= 12) + Point(HasLower(s) && HasUpper(s)) + Point(HasDigit(s)) + Point(HasSymbol(s))
  }

  /** `passwordStrength` */
  function Strength(s: string): (r: nat)
    ensures r <= 4
    ensures s == "" ==> r == 0
    ensures r == if Criteria(s) < 4 then Criteria(s) else 4
  {
    if s == "" then 0
    else var c := Criteria(s); if c < 4 then c else 4
  }

  /** Typing more never weakens a password: each check that holds of `s`
      holds of `s + t`. */
  lemma StrengthMonotone(s: string, t: string)
    ensures Strength(s) <= Strength(s + t)
  {
    var u := s + t;
    assert forall k :: 0 <= k < |s| ==> u[k] == s[k];
    if HasLower(s) { var k :| 0 <= k < |s| && IsLower(s[k]); assert IsLower(u[k]); }
    if HasUpper(s) { var k :| 0 <= k < |s| && IsUpper(s[k]); assert IsUpper(u[k]); }
    if HasDigit(s) { var k :| 0 <= k < |s| && IsDigit(s[k]); assert IsDigit(u[k]); }
    if HasSymbol(s) { var k :| 0 <= k < |s| && !IsAlphanumeric(s[k]); assert !IsAlphanumeric(u[k]); }
  }

  /** A password of twelve letters and digits with both cases scores the top mark. */
  lemma LongMixedIsStrong(s: string)
    requires |s| >= 12 && HasLower(s) && HasUpper(s) && HasDigit(s)
    ensures Strength(s) == 4
  {
  }

  /** `getPasswordStrengthText` */
  function StrengthText(s: string): (r: string)
    ensures r != ""
    ensures Strength(s) == 0 <==> r == "Very weak"
    ensures Strength(s) == 1 <==> r == "Weak"
    ensures Strength(s) == 2 <==> r == "Fair"
    ensures Strength(s) == 3 <==> r == "Good"
    ensures Strength(s) == 4 <==> r == "Strong"
  {
    match Strength(s)
    case 0 => "Very weak"
    case 1 => "Weak"
    case 2 => "Fair"
    case 3 => "Good"
    case 4 => "Strong"
    case _ => ""
  }

  /** The five words are distinct, so the word tells the score. */
  lemma TextDeterminesScore(s: string, t: string)
    ensures StrengthText(s) == StrengthText(t) <==> Strength(s) == Strength(t)
  {
  }

  /** `getPasswordStrengthColor` */
  function StrengthColor(s: string): (r: string)
    ensures r == "bg-red-500" <==> Strength(s) <= 1
    ensures r == "bg-yellow-400" <==> Strength(s) == 2
    ensures r == "bg-green-500" <==> Strength(s) >= 3
  {
    var n := Strength(s);
    if n <= 1 then "bg-red-500" else if n == 2 then "bg-yellow-400" else "bg-green-500"
  }

  /** The four bars: the first `Strength` take the colour, the rest stay grey. */
  function Bars(s: string): (r: seq<string>)
    ensures |r| == 4
    ensures forall i :: 0 <= i < 4 ==> (r[i] == StrengthColor(s) <==> i < Strength(s))
  {
    seq(4, i requires 0 <= i < 4 => if i < Strength(s) then StrengthColor(s) else "bg-gray-200")
  }
}
