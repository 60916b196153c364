/**
 * The two regular expressions of the contact form, written as predicates on
 * the (already trimmed) contact value:
 *   e-mail  ^[^\s@]+@[^\s@]+\.[^\s@]+$
 *   phone   ^(\+62|62|0)[0-9]{9,13}$
 */
module Patterns {
  import opened Text

  /** A member of the class [^\s@]. */
  predicate IsPlain(c: char) {
    !IsWhitespace(c) && c != '@'
  }

  predicate AllPlain(s: string) {
    forall i | 0 <= i < |s| :: IsPlain(s[i])
  }

  /**
   * The e-mail pattern read literally: s is local '@' host '.' tail, each of
   * the three parts a non-empty run of [^\s@]. `at` is the index of the '@'
   * and `dot` that of the '.' the pattern consumes.
   */
  predicate IsEmail(s: string) {
    exists at, dot | 0 < at < |s| && at + 1 < dot < |s| - 1 ::
      && s[at] == '@' && s[dot] == '.'
      && AllPlain(s[..at]) && AllPlain(s[at + 1..dot]) && AllPlain(s[dot + 1..])
  }

  /** d has a '.' with at least one character before it and one after it. */
  predicate HasInnerDot(d: string) {
    exists k | 0 < k < |d| - 1 :: d[k] == '.'
  }

  function CountOf(s: string, c: char): (n: nat)
    ensures n == 0 <==> c !in s
    ensures n <= |s|
  {
    if s == [] then 0 else (if s[0] == c then 1 else 0) + CountOf(s[1..], c)
  }

  lemma {:induction false} CountOfAppend(a: string, b: string, c: char)
    ensures CountOf(a + b, c) == CountOf(a, c) + CountOf(b, c)
  {
    if a == [] {
      assert a + b == b;
    } else {
      assert (a + b)[0] == a[0];
      assert (a + b)[1..] == a[1..] + b;
      CountOfAppend(a[1..], b, c);
    }
  }

  /** The parts of an e-mail address hold neither white space nor another '@'. */
  lemma EmailWellFormed(s: string, at: nat, dot: nat)
    requires 0 < at < |s| && at + 1 < dot < |s| - 1
    requires s[at] == '@' && s[dot] == '.'
    requires AllPlain(s[..at]) && AllPlain(s[at + 1..dot]) && AllPlain(s[dot + 1..])
    ensures forall i | 0 <= i < |s| && i != at :: IsPlain(s[i])
  {
    forall i | 0 <= i < |s| && i != at ensures IsPlain(s[i]) {
      if i < at {
        assert s[..at][i] == s[i];
      } else if at < i < dot {
        assert s[at + 1..dot][i - at - 1] == s[i];
      } else if dot < i {
        assert s[dot + 1..][i - dot - 1] == s[i];
      }
    }
  }

  /** Splitting s around index at: the '@' count is that of the two sides plus one. */
  lemma CountAround(s: string, at: nat)
    requires at < |s| && s[at] == '@'
    ensures CountOf(s, '@') == CountOf(s[..at], '@') + 1 + CountOf(s[at + 1..], '@')
  {
    assert s == s[..at] + ([s[at]] + s[at + 1..]);
    CountOfAppend(s[..at], [s[at]] + s[at + 1..], '@');
    CountOfAppend([s[at]], s[at + 1..], '@');
  }

  lemma EmailPartsShape(s: string, at: nat, dot: nat)
    requires 0 < at < |s| && at + 1 < dot < |s| - 1
    requires s[at] == '@' && s[dot] == '.'
    requires AllPlain(s[..at]) && AllPlain(s[at + 1..dot]) && AllPlain(s[dot + 1..])
    ensures NoWhitespace(s) && CountOf(s, '@') == 1 && HasInnerDot(s[at + 1..])
  {
    EmailWellFormed(s, at, dot);
    var rest := s[at + 1..];
    assert rest[dot - at - 1] == '.';
    assert '@' !in s[..at] by {
      forall i | 0 <= i < at ensures s[..at][i] != '@' {
        assert s[..at][i] == s[i];
      }
    }
    assert '@' !in rest by {
      forall i | 0 <= i < |rest| ensures rest[i] != '@' {
        assert rest[i] == s[at + 1 + i];
      }
    }
    CountAround(s, at);
  }

  lemma EmailShapeForward(s: string)
    requires IsEmail(s)
    ensures NoWhitespace(s) && CountOf(s, '@') == 1
    ensures exists at | 0 < at < |s| :: s[at] == '@' && HasInnerDot(s[at + 1..])
  {
    var at, dot :| 0 < at < |s| && at + 1 < dot < |s| - 1
      && s[at] == '@' && s[dot] == '.'
      && AllPlain(s[..at]) && AllPlain(s[at + 1..dot]) && AllPlain(s[dot + 1..]);
    EmailPartsShape(s, at, dot);
  }

  lemma EmailShapeBackward(s: string, at: nat)
    requires NoWhitespace(s) && CountOf(s, '@') == 1
    requires 0 < at < |s| && s[at] == '@' && HasInnerDot(s[at + 1..])
    ensures IsEmail(s)
  {
    var rest := s[at + 1..];
    var k :| 0 < k < |rest| - 1 && rest[k] == '.';
    var dot := at + 1 + k;
    CountAround(s, at);
    assert AllPlain(s[..at]) by {
      forall i | 0 <= i < at ensures IsPlain(s[..at][i]) {
        assert s[..at][i] == s[i];
        assert s[i] in s[..at];
      }
    }
    var mid := s[at + 1..dot];
    assert AllPlain(mid) by {
      forall i | 0 <= i < |mid| ensures IsPlain(mid[i]) {
        assert mid[i] == rest[i] == s[at + 1 + i];
        assert rest[i] in rest;
      }
    }
    var tail := s[dot + 1..];
    assert AllPlain(tail) by {
      forall i | 0 <= i < |tail| ensures IsPlain(tail[i]) {
        assert tail[i] == rest[k + 1 + i] == s[dot + 1 + i];
        assert rest[k + 1 + i] in rest;
      }
    }
    assert s[dot] == '.';
  }

  /**
   * The e-mail pattern accepts exactly the strings without white space that
   * hold exactly one '@', not in first position, followed by a domain with a
   * '.' that is neither its first nor its last character.
   */
  lemma EmailShape(s: string)
    ensures IsEmail(s) <==>
      && NoWhitespace(s)
      && CountOf(s, '@') == 1
      && exists at | 0 < at < |s| :: s[at] == '@' && HasInnerDot(s[at + 1..])
  {
    if IsEmail(s) {
      EmailShapeForward(s);
    }
    if && NoWhitespace(s) && CountOf(s, '@') == 1
       && exists at | 0 < at < |s| :: s[at] == '@' && HasInnerDot(s[at + 1..])
    {
      var at :| 0 < at < |s| && s[at] == '@' && HasInnerDot(s[at + 1..]);
      EmailShapeBackward(s, at);
    }
  }

  /** A string that holds two '@' is never an e-mail address. */
  lemma TwoAtSignsRejected(s: string, i: nat, j: nat)
    requires i < j < |s| && s[i] == '@' && s[j] == '@'
    ensures !IsEmail(s)
  {
    if IsEmail(s) {
      var at, dot :| 0 < at < |s| && at + 1 < dot < |s| - 1
        && s[at] == '@' && s[dot] == '.'
        && AllPlain(s[..at]) && AllPlain(s[at + 1..dot]) && AllPlain(s[dot + 1..]);
      EmailWellFormed(s, at, dot);
    }
  }

  predicate IsDigit(c: char) {
    '0' <= c <= '9'
  }

  /** The part [0-9]{9,13} of the phone pattern. */
  predicate IsSubscriberNumber(s: string) {
    9 <= |s| <= 13 && forall i | 0 <= i < |s| :: IsDigit(s[i])
  }

  /** The phone pattern: one of the prefixes "+62", "62", "0", then 9 to 13 ASCII digits. */
  predicate IsPhone(s: string) {
    || (|s| >= 3 && s[..3] == "+62" && IsSubscriberNumber(s[3..]))
    || (|s| >= 2 && s[..2] == "62" && IsSubscriberNumber(s[2..]))
    || (|s| >= 1 && s[..1] == "0" && IsSubscriberNumber(s[1..]))
  }

  /**
   * A phone number is 10 to 16 characters long and every character but a
   * leading '+' is a digit; in particular it holds neither white space nor '@'.
   */
  lemma PhoneShape(s: string)
    requires IsPhone(s)
    ensures 10 <= |s| <= 16
    ensures forall i | 0 < i < |s| :: IsDigit(s[i])
    ensures IsDigit(s[0]) || s[0] == '+'
    ensures NoWhitespace(s) && '@' !in s
  {
    var p := if s[..1] == "0" then 1 else if s[..2] == "62" then 2 else 3;
    assert s[..p][0] == s[0];
    forall i | p <= i < |s| ensures IsDigit(s[i]) {
      assert s[p..][i - p] == s[i];
    }
    forall i | 0 < i < p ensures IsDigit(s[i]) {
      assert s[..p][i] == s[i];
    }
  }

  /** No contact value is both an e-mail address and a phone number. */
  lemma EmailAndPhoneDisjoint(s: string)
    ensures !(IsEmail(s) && IsPhone(s))
  {
    if IsPhone(s) && IsEmail(s) {
      PhoneShape(s);
      EmailShape(s);
    }
  }

  /** Neither pattern accepts a value that holds white space. */
  lemma WhitespaceRejected(s: string, i: nat)
    requires i < |s| && IsWhitespace(s[i])
    ensures !IsEmail(s) && !IsPhone(s)
  {
    if IsEmail(s) {
      EmailShape(s);
    }
    if IsPhone(s) {
      PhoneShape(s);
    }
  }

  lemma EmailExamples()
    ensures IsEmail("user@example.com")
    ensures !IsEmail("not-an-email")
  {
    var s := "user@example.com";
    assert s[..4] == "user" && s[5..12] == "example" && s[13..] == "com";
    assert s[4] == '@' && s[12] == '.';
    var t := "not-an-email";
    assert '@' !in t;
    EmailShape(t);
  }

  lemma PhoneExamples()
    ensures IsPhone("0812345678901")
    ensures IsPhone("+6281234567890")
    ensures !IsPhone("123")
  {
    var s := "0812345678901";
    assert s[..1] == "0" && s[1..] == "812345678901";
    var t := "+6281234567890";
    assert t[..3] == "+62" && t[3..] == "81234567890";
    var u := "123";
    assert u[..1][0] == '1' && u[..2][0] == '1' && u[..3][0] == '1';
  }
}
