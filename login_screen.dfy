/** The password gate in front of the experience.

    Submitting compares the lower-cased input with a fixed secret. A wrong
    guess raises the error and shake flags; a 500 ms timer clears the shake
    and a 2000 ms timer clears the error. Lower-casing is modelled for ASCII
    letters only. */
module LoginScreen {

  const Secret: string := "garfield9"

  /** ASCII lower-casing of one character. */
  function LowerChar(c: char): (r: char)
    ensures 'A' <= c <= 'Z' ==> r as int == c as int + 32
    ensures !('A' <= c <= 'Z') ==> r == c
    ensures !('A' <= r <= 'Z')
  {
    if 'A' <= c <= 'Z' then (c as int + 32) as char else c
  }

  /** `toLowerCase` on an ASCII string: the same length, lowered character by character. */
  function Lower(s: string): (r: string)
    ensures |r| == |s|
    ensures forall i :: 0 <= i < |s| ==> r[i] == LowerChar(s[i])
  {
    if s == [] then [] else [LowerChar(s[0])] + Lower(s[1..])
  }

  /** Lower-casing twice is lower-casing once. */
  lemma LowerIdempotent(s: string)
    ensures Lower(Lower(s)) == Lower(s)
  {
    assert forall i :: 0 <= i < |s| ==> LowerChar(LowerChar(s[i])) == LowerChar(s[i]);
  }

  /** The gate's test. */
  predicate Accepts(password: string) {
    Lower(password) == Secret
  }

  /** A password is accepted exactly when it has the secret's length and
      each character is the secret's character in either case. */
  lemma AcceptsAnyCasing(password: string)
    ensures Accepts(password) <==>
      |password| == |Secret| &&
      forall i :: 0 <= i < |Secret| ==> LowerChar(password[i]) == Secret[i]
  {
    if |password| == |Secret| && forall i :: 0 <= i < |Secret| ==> LowerChar(password[i]) == Secret[i] {
      assert Lower(password) == Secret;
    }
  }

  /** For instance the all-capitals spelling is accepted, and a prefix is not. */
  lemma AcceptsExamples()
    ensures Accepts("GARFIELD9")
    ensures !Accepts("garfield")
  {
    var s := "GARFIELD9";
    assert Lower(s) == [LowerChar('G'), LowerChar('A'), LowerChar('R'), LowerChar('F'),
      LowerChar('I'), LowerChar('E'), LowerChar('L'), LowerChar('D'), LowerChar('9')];
    assert |Lower("garfield")| == 8;
  }

  /** The form: the password, showPassword, error and shake states, and the
      timers pending to clear error and shake. */
  class LoginForm {
    var password: string
    var showPassword: bool
    var error: bool
    var shake: bool
    var pendingShakeClears: nat
    var pendingErrorClears: nat

    /** A flag stays raised only while a timer to clear it is pending. */
    ghost predicate Valid()
      reads this
    {
      (shake ==> pendingShakeClears > 0) && (error ==> pendingErrorClears > 0)
    }

    /** The input's type attribute. */
    function InputType(): (t: string)
      reads this
      ensures t == "text" <==> showPassword
    {
      if showPassword then "text" else "password"
    }

    /** The red border and the "not the secret" message. */
    predicate ErrorShown()
      reads this
    {
      error
    }

    constructor ()
      ensures Valid() && password == "" && !showPassword && !error && !shake
      ensures pendingShakeClears == 0 && pendingErrorClears == 0
    {
      password, showPassword, error, shake := "", false, false, false;
      pendingShakeClears, pendingErrorClears := 0, 0;
    }

    /** Typing into the input. */
    method SetPassword(s: string)
      requires Valid()
      modifies this
      ensures Valid()
      ensures password == s
      ensures showPassword == old(showPassword) && error == old(error) && shake == old(shake)
      ensures pendingShakeClears == old(pendingShakeClears) && pendingErrorClears == old(pendingErrorClears)
    {
      password := s;
    }

    /** Submitting: returns whether `onSuccess` is called. A wrong password
        raises both flags and schedules their clearing. */
    method HandleSubmit() returns (success: bool)
      requires Valid()
      modifies this
      ensures Valid()
      ensures success <==> Accepts(password)
      ensures success ==> unchanged(this)
      ensures !success ==>
        && error && shake && password == old(password) && showPassword == old(showPassword)
        && pendingShakeClears == old(pendingShakeClears) + 1
        && pendingErrorClears == old(pendingErrorClears) + 1
    {
      if Lower(password) == Secret {
        success := true;
      } else {
        success := false;
        error := true;
        shake := true;
        pendingShakeClears := pendingShakeClears + 1;
        pendingErrorClears := pendingErrorClears + 1;
      }
    }

    /** A 500 ms timer clears shake, even one raised by a later failure. */
    method ShakeTimerFires()
      requires Valid() && pendingShakeClears > 0
      modifies this
      ensures Valid()
      ensures !shake && pendingShakeClears == old(pendingShakeClears) - 1
      ensures error == old(error) && pendingErrorClears == old(pendingErrorClears)
      ensures password == old(password) && showPassword == old(showPassword)
    {
      shake := false;
      pendingShakeClears := pendingShakeClears - 1;
    }

    /** A 2000 ms timer clears error, even one raised by a later failure. */
    method ErrorTimerFires()
      requires Valid() && pendingErrorClears > 0
      modifies this
      ensures Valid()
      ensures !error && pendingErrorClears == old(pendingErrorClears) - 1
      ensures shake == old(shake) && pendingShakeClears == old(pendingShakeClears)
      ensures password == old(password) && showPassword == old(showPassword)
    {
      error := false;
      pendingErrorClears := pendingErrorClears - 1;
    }

    /** The eye button. Pressing it twice restores the setting. */
    method ToggleShowPassword()
      requires Valid()
      modifies this
      ensures Valid()
      ensures showPassword == !old(showPassword)
      ensures password == old(password) && error == old(error) && shake == old(shake)
      ensures pendingShakeClears == old(pendingShakeClears) && pendingErrorClears == old(pendingErrorClears)
    {
      showPassword := !showPassword;
    }
  }
}
