/**
 * The sign-up form's validators: a name of ASCII letter runs, an e-mail
 * address found anywhere in the text, and a password of at least six
 * characters with an upper-case letter, a digit and a special character.
 */
module Validation {
  import opened Text

  predicate IsNameSep(c: char) { c == ' ' || c == '-' }

  /**
   * `/^[A-Za-z]+([ -]?[A-Za-z]+)*$/` as its two states: `NameStart` expects a
   * letter, `NameAfterLetter` has just read one and may end, read another
   * letter, or read one separator and expect a letter again.
   */
  predicate NameStart(s: string)
    decreases |s|
  {
    |s| > 0 && IsLetter(s[0]) && NameAfterLetter(s[1..])
  }

  predicate NameAfterLetter(s: string)
    decreases |s|
  {
    s == []
    || (IsLetter(s[0]) && NameAfterLetter(s[1..]))
    || (IsNameSep(s[0]) && NameStart(s[1..]))
  }

  predicate NameChars(s: string) {
    forall i :: 0 <= i < |s| ==> IsLetter(s[i]) || IsNameSep(s[i])
  }

  predicate NoDoubleSep(s: string) {
    forall i :: 0 <= i < |s| - 1 ==> !(IsNameSep(s[i]) && IsNameSep(s[i + 1]))
  }

  /** Letters, spaces and hyphens only, a letter at both ends, and never two separators in a row. */
  predicate WellFormedName(s: string) {
    |s| > 0 && IsLetter(s[0]) && IsLetter(s[|s| - 1]) && NameChars(s) && NoDoubleSep(s)
  }

  /** What may follow a letter: nothing, or letters and single separators ending in a letter. */
  predicate NameRest(t: string) {
    (t == [] || IsLetter(t[|t| - 1])) && NameChars(t) && NoDoubleSep(t)
  }

  lemma {:induction false} AfterLetterIff(t: string)
    ensures NameAfterLetter(t) <==> NameRest(t)
    decreases |t|
  {
    if t != [] {
      if IsLetter(t[0]) {
        AfterLetterIff(t[1..]);
        assert NameRest(t) <==> NameRest(t[1..]) by {
          if NameRest(t[1..]) {
            forall i | 0 <= i < |t| ensures IsLetter(t[i]) || IsNameSep(t[i]) {
              if i > 0 { assert t[i] == t[1..][i - 1]; }
            }
            forall i | 0 <= i < |t| - 1 ensures !(IsNameSep(t[i]) && IsNameSep(t[i + 1])) {
              if i > 0 { assert t[i] == t[1..][i - 1] && t[i + 1] == t[1..][i]; }
            }
          }
          if NameRest(t) {
            forall i | 0 <= i < |t[1..]| ensures IsLetter(t[1..][i]) || IsNameSep(t[1..][i]) {
              assert t[1..][i] == t[i + 1];
            }
            forall i | 0 <= i < |t[1..]| - 1 ensures !(IsNameSep(t[1..][i]) && IsNameSep(t[1..][i + 1])) {
              assert t[1..][i] == t[i + 1] && t[1..][i + 1] == t[i + 2];
            }
          }
        }
      } else if IsNameSep(t[0]) {
        var u := t[1..];
        if |u| > 0 {
          AfterLetterIff(u[1..]);
          assert NameRest(t) <==> IsLetter(u[0]) && NameRest(u[1..]) by {
            if IsLetter(u[0]) && NameRest(u[1..]) {
              forall i | 0 <= i < |t| ensures IsLetter(t[i]) || IsNameSep(t[i]) {
                if i > 1 { assert t[i] == u[1..][i - 2]; }
              }
              forall i | 0 <= i < |t| - 1 ensures !(IsNameSep(t[i]) && IsNameSep(t[i + 1])) {
                if i > 1 { assert t[i] == u[1..][i - 2] && t[i + 1] == u[1..][i - 1]; }
              }
            }
            if NameRest(t) {
              assert !IsNameSep(t[1]);
              forall i | 0 <= i < |u[1..]| ensures IsLetter(u[1..][i]) || IsNameSep(u[1..][i]) {
                assert u[1..][i] == t[i + 2];
              }
              forall i | 0 <= i < |u[1..]| - 1 ensures !(IsNameSep(u[1..][i]) && IsNameSep(u[1..][i + 1])) {
                assert u[1..][i] == t[i + 2] && u[1..][i + 1] == t[i + 3];
              }
            }
          }
        }
      } else {
        assert !NameChars(t);
      }
    }
  }

  /** The pattern holds of exactly the well-formed names. */
  lemma NamePatternIff(s: string)
    ensures NameStart(s) <==> WellFormedName(s)
  {
    if |s| > 0 && IsLetter(s[0]) {
      var t := s[1..];
      AfterLetterIff(t);
      if NameRest(t) {
        forall i | 0 <= i < |s| ensures IsLetter(s[i]) || IsNameSep(s[i]) {
          if i > 0 { assert s[i] == t[i - 1]; }
        }
        forall i | 0 <= i < |s| - 1 ensures !(IsNameSep(s[i]) && IsNameSep(s[i + 1])) {
          if i > 0 { assert s[i] == t[i - 1] && s[i + 1] == t[i]; }
        }
      }
      if WellFormedName(s) {
        forall i | 0 <= i < |t| ensures IsLetter(t[i]) || IsNameSep(t[i]) {
          assert t[i] == s[i + 1];
        }
        forall i | 0 <= i < |t| - 1 ensures !(IsNameSep(t[i]) && IsNameSep(t[i + 1])) {
          assert t[i] == s[i + 1] && t[i + 1] == s[i + 2];
        }
      }
    }
  }

  /** `validateName(name)`: at least three characters, and the name pattern. */
  function ValidateName(name: string): (r: bool)
    ensures r <==> |name| >= 3 && WellFormedName(name)
  {
    NamePatternIff(name);
    if |name| < 3 then false
    else NameStart(name)
  }

  /** Two-letter names are refused even though they fit the pattern; a single space or hyphen between words is accepted. */
  lemma NameExamples()
    ensures !ValidateName("Al") && WellFormedName("Al")
    ensures ValidateName("Mary-Jane Lee")
    ensures !ValidateName("Ann  Lee")
    ensures !ValidateName("Ann-")
  {
    assert WellFormedName("Mary-Jane Lee");
    assert "Ann  Lee"[3] == ' ' && "Ann  Lee"[4] == ' ';
    assert "Ann-"[3] == '-';
  }

  predicate NonBlank(s: string) {
    forall k :: 0 <= k < |s| ==> !IsSpace(s[k])
  }

  /** An `@` at `p` and a `.` at `q` with at least one character before, between and after them. */
  predicate AtDot(t: string, p: int, q: int) {
    0 < p && p + 1 < q && q + 1 < |t| && t[p] == '@' && t[q] == '.'
  }

  /** `t` as a whole matches `\S+@\S+\.\S+`: no whitespace, and an `@` and a later `.` with something before, between and after. */
  ghost predicate EmailMatch(t: string) {
    NonBlank(t) && exists p, q :: AtDot(t, p, q)
  }

  /** The `@` at `p` and the `.` at `q` of `email` can be the middle of a match: non-blank on both sides and in between. */
  predicate EmailAt(email: string, p: int, q: int) {
    AtDot(email, p, q) && !IsSpace(email[p - 1]) && !IsSpace(email[q + 1]) && NonBlank(email[p + 1..q])
  }

  /**
   * `validateEmail(email)`: the pattern is not anchored, so it holds when
   * some `@` has a non-blank character before it and is followed, without
   * whitespace, by a `.` after at least one character and a non-blank one.
   */
  function ValidateEmail(email: string): (r: bool)
    ensures r ==> |email| >= 5 && '@' in email && '.' in email
  {
    exists p, q | 0 < p < q < |email| :: EmailAt(email, p, q)
  }

  /** The piece around a usable `@` and `.` matches the pattern as a whole. */
  lemma EmailAtMatches(email: string, p: int, q: int)
    requires EmailAt(email, p, q)
    ensures EmailMatch(email[p - 1..q + 2])
  {
    var t := email[p - 1..q + 2];
    assert AtDot(t, 1, q - p + 1);
    forall k | 0 <= k < |t| ensures !IsSpace(t[k]) {
      assert t[k] == email[p - 1 + k];
      if 1 < k < q - p + 1 {
        var inner := email[p + 1..q];
        assert email[p - 1 + k] == inner[k - 2];
      }
    }
  }

  /** A piece that matches as a whole has a usable `@` and `.` where it stands. */
  lemma MatchHasEmailAt(email: string, i: int, j: int) returns (p: int, q: int)
    requires 0 <= i <= j <= |email| && EmailMatch(email[i..j])
    ensures 0 < p < q < |email| && EmailAt(email, p, q)
  {
    var t := email[i..j];
    var p0, q0 :| AtDot(t, p0, q0);
    p, q := i + p0, i + q0;
    assert email[p] == t[p0] && email[q] == t[q0];
    assert email[p - 1] == t[p0 - 1] && email[q + 1] == t[q0 + 1];
    var inner := email[p + 1..q];
    forall k | 0 <= k < |inner| ensures !IsSpace(inner[k]) {
      assert inner[k] == t[p0 + 1 + k];
    }
  }

  /** The test is true exactly when some piece of the text matches the pattern as a whole. */
  lemma EmailIffSomeMatch(email: string)
    ensures ValidateEmail(email) <==> exists i, j :: 0 <= i <= j <= |email| && EmailMatch(email[i..j])
  {
    if ValidateEmail(email) {
      var p, q :| 0 < p < q < |email| && EmailAt(email, p, q);
      EmailAtMatches(email, p, q);
    }
    if exists i, j :: 0 <= i <= j <= |email| && EmailMatch(email[i..j]) {
      var i, j :| 0 <= i <= j <= |email| && EmailMatch(email[i..j]);
      var p, q := MatchHasEmailAt(email, i, j);
    }
  }

  /** Text around an accepted address keeps it accepted. */
  lemma EmailMonotone(email: string, before: string, after: string)
    requires ValidateEmail(email)
    ensures ValidateEmail(before + email + after)
  {
    var p, q :| 0 < p < q < |email| && EmailAt(email, p, q);
    var s := before + email + after;
    var d := |before|;
    assert s[d..d + |email|] == email;
    assert s[d + p + 1..d + q] == email[p + 1..q];
    assert s[d + p] == email[p] && s[d + q] == email[q];
    assert s[d + p - 1] == email[p - 1] && s[d + q + 1] == email[q + 1];
    assert EmailAt(s, d + p, d + q);
  }

  /** The characters of `[!@#$%^&*(),.?":{}|<>]`. */
  const SPECIAL_CHARS: string := "!@#$%^&*(),.?\":{}|<>"

  predicate IsSpecial(c: char) { c in SPECIAL_CHARS }

  /** `/[…]/.test(s)` for a one-character class: some character of `s` is in the class. */
  function HasChar(s: string, p: char -> bool): (r: bool)
    ensures r <==> exists k :: 0 <= k < |s| && p(s[k])
  {
    if s == [] then false
    else if p(s[0]) then true
    else
      var r := HasChar(s[1..], p);
      assert r ==> exists k :: 0 <= k < |s| && p(s[k]) by {
        if r {
          var k :| 0 <= k < |s[1..]| && p(s[1..][k]);
          assert s[k + 1] == s[1..][k];
        }
      }
      r
  }

  /**
   * `validatePassword(password)`: six UTF-16 code units or more (JavaScript's
   * `length`), with an upper-case letter, a digit and a special character.
   */
  function ValidatePassword(password: string): (r: bool)
    ensures r <==> (Utf16Length(password) >= 6
      && (exists k :: 0 <= k < |password| && IsUpper(password[k]))
      && (exists k :: 0 <= k < |password| && IsDigit(password[k]))
      && (exists k :: 0 <= k < |password| && IsSpecial(password[k])))
  {
    if Utf16Length(password) < 6 then false
    else if !HasChar(password, IsUpper) then false
    else if !HasChar(password, IsDigit) then false
    else if !HasChar(password, IsSpecial) then false
    else true
  }

  /** Appending characters to an accepted password keeps it accepted. */
  lemma PasswordMonotone(password: string, more: string)
    requires ValidatePassword(password)
    ensures ValidatePassword(password + more)
  {
    var s := password + more;
    Utf16LengthAppend(password, more);
    var u :| 0 <= u < |password| && IsUpper(password[u]);
    var d :| 0 <= d < |password| && IsDigit(password[d]);
    var c :| 0 <= c < |password| && IsSpecial(password[c]);
    assert s[u] == password[u] && s[d] == password[d] && s[c] == password[c];
  }

  /** Six characters with an upper-case letter, a digit and a special character at known places are accepted. */
  lemma PasswordWitnesses(password: string, u: nat, d: nat, c: nat)
    requires |password| >= 6 && u < |password| && d < |password| && c < |password|
    requires IsUpper(password[u]) && IsDigit(password[d]) && IsSpecial(password[c])
    ensures ValidatePassword(password)
  {
  }

  /** A character outside the Basic Multilingual Plane counts twice toward the six: "Aa1!😀" is accepted. */
  lemma AstralCharCountsTwice()
    ensures |"Aa1!\U{1F600}"| == 5
    ensures ValidatePassword("Aa1!\U{1F600}")
  {
    var p := "Aa1!\U{1F600}";
    assert p[0] == 'A' && p[2] == '1' && p[3] == '!';
    assert SPECIAL_CHARS[0] == '!';
    assert Utf16Length(p) == 6 by {
      assert p == "Aa1!" + "\U{1F600}";
      Utf16LengthAppend("Aa1!", "\U{1F600}");
    }
  }

  /** No lower-case letter is required: a password of capitals, a digit and a symbol passes. */
  lemma NoLowercaseRequired()
    ensures ValidatePassword("ABCDE1!")
    ensures forall k :: 0 <= k < |"ABCDE1!"| ==> !IsLower("ABCDE1!"[k])
  {
    var p := "ABCDE1!";
    forall k | 0 <= k < |p| ensures !IsLower(p[k]) {
      assert p[k] in p;
    }
    assert p[0] == 'A' && p[5] == '1' && p[6] == '!';
    assert SPECIAL_CHARS[0] == '!';
    PasswordWitnesses(p, 0, 5, 6);
  }
}
