/**
 The login view's email check, `validateEmail`: a test of the regular
 expression `^[^\s@]+@[^\s@]+\.[^\s@]+$`. The check is written as a
 deterministic scanner over the characters of the string; the lemmas prove it
 equal to the regular expression's own meaning (three non-empty runs of
 characters outside `[\s@]`, joined by an `@` and a `.`) and to the shape
 "local part, one `@`, a domain with an inner dot".
 */
module EmailFormat {
  import opened Text

  /** A character of the class `[^\s@]`. */
  predicate IsPlain(c: char) {
    !IsWhitespace(c) && c != '@'
  }

  predicate AllPlain(s: string) {
    forall i :: 0 <= i < |s| ==> IsPlain(s[i])
  }

  /** The states of the scanner: what part of `local@domain.tld` has been read. */
  datatype Scan =
    | Start     // nothing read
    | Local     // one or more local-part characters
    | AfterAt   // the `@`
    | Domain    // one or more domain characters, no dot after the first one yet
    | AfterDot  // a dot that has at least one domain character before it
    | Tld       // at least one character after such a dot: the string matches
    | Reject    // no continuation can match

  function Step(q: Scan, c: char): Scan {
    if !IsPlain(c) then
      if q == Local && c == '@' then AfterAt else Reject
    else
      match q
      case Start => Local
      case Local => Local
      case AfterAt => Domain
      case Domain => if c == '.' then AfterDot else Domain
      case AfterDot => Tld
      case Tld => Tld
      case Reject => Reject
  }

  function Run(q: Scan, s: string): Scan
    decreases |s|
  {
    if s == [] then q else Run(Step(q, s[0]), s[1..])
  }

  /** `validateEmail(email)`. */
  predicate IsValidEmail(s: string) {
    Run(Start, s) == Tld
  }

  /** The meaning of `^[^\s@]+@[^\s@]+\.[^\s@]+$`: `s` splits as
      `A + "@" + B + "." + C` with `A`, `B`, `C` non-empty runs of `[^\s@]`. */
  ghost predicate RegexMatch(s: string) {
    exists a, d :: 0 < a && a + 1 < d && d + 1 < |s| && s[a] == '@' && s[d] == '.' &&
                   AllPlain(s[..a]) && AllPlain(s[a + 1..d]) && AllPlain(s[d + 1..])
  }

  /** A domain part: no whitespace, no `@`, and a `.` that is neither its
      first nor its last character. */
  ghost predicate IsDomain(r: string) {
    AllPlain(r) && exists d :: 0 < d < |r| - 1 && r[d] == '.'
  }

  /** The shape `L + "@" + R` with `L = s[..a]` non-empty and free of
      whitespace and `@`, and `R = s[a + 1..]` a domain part. */
  ghost predicate EmailShape(s: string) {
    exists a :: 0 < a < |s| && s[a] == '@' && AllPlain(s[..a]) && IsDomain(s[a + 1..])
  }

  lemma AllPlainCons(s: string)
    requires s != []
    ensures AllPlain(s) <==> IsPlain(s[0]) && AllPlain(s[1..])
  {
    if IsPlain(s[0]) && AllPlain(s[1..]) {
      forall i | 0 <= i < |s| ensures IsPlain(s[i]) {
        if i > 0 { assert s[i] == s[1..][i - 1]; }
      }
    }
  }

  lemma {:induction false} RunReject(s: string)
    ensures Run(Reject, s) == Reject
    decreases |s|
  {
    if s != [] { RunReject(s[1..]); }
  }

  lemma {:induction false} RunTld(s: string)
    ensures Run(Tld, s) == Tld <==> AllPlain(s)
    decreases |s|
  {
    if s != [] {
      AllPlainCons(s);
      if IsPlain(s[0]) { RunTld(s[1..]); } else { RunReject(s[1..]); }
    }
  }

  lemma RunAfterDot(s: string)
    ensures Run(AfterDot, s) == Tld <==> s != [] && AllPlain(s)
  {
    if s != [] {
      AllPlainCons(s);
      if IsPlain(s[0]) { RunTld(s[1..]); } else { RunReject(s[1..]); }
    }
  }

  lemma {:induction false} RunDomain(s: string)
    ensures Run(Domain, s) == Tld <==>
            AllPlain(s) && exists d :: 0 <= d < |s| - 1 && s[d] == '.'
    decreases |s|
  {
    if s != [] {
      AllPlainCons(s);
      var t := s[1..];
      if !IsPlain(s[0]) {
        RunReject(t);
      } else if s[0] == '.' {
        RunAfterDot(t);
        if AllPlain(s) && exists d :: 0 <= d < |s| - 1 && s[d] == '.' {
          assert t != [];
        }
      } else {
        RunDomain(t);
        if AllPlain(s) && exists d :: 0 <= d < |s| - 1 && s[d] == '.' {
          var d :| 0 <= d < |s| - 1 && s[d] == '.';
          assert t[d - 1] == '.';
        }
        if AllPlain(t) && exists d :: 0 <= d < |t| - 1 && t[d] == '.' {
          var d :| 0 <= d < |t| - 1 && t[d] == '.';
          assert s[d + 1] == '.';
        }
      }
    }
  }

  lemma RunAfterAt(s: string)
    ensures Run(AfterAt, s) == Tld <==> IsDomain(s)
  {
    if s != [] {
      AllPlainCons(s);
      var t := s[1..];
      if !IsPlain(s[0]) {
        RunReject(t);
      } else {
        RunDomain(t);
        if IsDomain(s) {
          var d :| 0 < d < |s| - 1 && s[d] == '.';
          assert t[d - 1] == '.';
        }
        if AllPlain(t) && exists d :: 0 <= d < |t| - 1 && t[d] == '.' {
          var d :| 0 <= d < |t| - 1 && t[d] == '.';
          assert s[d + 1] == '.';
        }
      }
    }
  }

  /** What follows the first local-part character: more of the local part,
      then `@`, then a domain part. */
  ghost predicate LocalRest(s: string) {
    exists a :: 0 <= a < |s| && s[a] == '@' && AllPlain(s[..a]) && IsDomain(s[a + 1..])
  }

  lemma {:induction false} RunLocal(s: string)
    ensures Run(Local, s) == Tld <==> LocalRest(s)
    decreases |s|
  {
    if s != [] {
      var t := s[1..];
      if s[0] == '@' {
        RunAfterAt(t);
        if IsDomain(t) {
          assert s[..0] == [] && s[1..] == t;
        }
        forall a | 0 < a < |s| ensures !AllPlain(s[..a]) {
          assert s[..a][0] == s[0];
        }
      } else if !IsPlain(s[0]) {
        RunReject(t);
        forall a | 0 < a < |s| ensures !AllPlain(s[..a]) {
          assert s[..a][0] == s[0];
        }
      } else {
        RunLocal(t);
        if LocalRest(s) {
          var a :| 0 <= a < |s| && s[a] == '@' && AllPlain(s[..a]) && IsDomain(s[a + 1..]);
          assert a > 0;
          AllPlainCons(s[..a]);
          assert s[..a][1..] == t[..a - 1];
          assert t[a - 1 + 1..] == s[a + 1..];
          assert t[a - 1] == '@';
        }
        if LocalRest(t) {
          var a :| 0 <= a < |t| && t[a] == '@' && AllPlain(t[..a]) && IsDomain(t[a + 1..]);
          AllPlainCons(s[..a + 1]);
          assert s[..a + 1][1..] == t[..a];
          assert s[a + 1 + 1..] == t[a + 1..];
          assert s[a + 1] == '@';
        }
      }
    }
  }

  /** The scanner accepts exactly the strings of the shape `L + "@" + R`. */
  lemma ValidEmailIffShape(s: string)
    ensures IsValidEmail(s) <==> EmailShape(s)
  {
    if s != [] {
      var t := s[1..];
      if !IsPlain(s[0]) {
        RunReject(t);
        forall a | 0 < a < |s| ensures !AllPlain(s[..a]) {
          assert s[..a][0] == s[0];
        }
      } else {
        RunLocal(t);
        if EmailShape(s) {
          var a :| 0 < a < |s| && s[a] == '@' && AllPlain(s[..a]) && IsDomain(s[a + 1..]);
          AllPlainCons(s[..a]);
          assert s[..a][1..] == t[..a - 1];
          assert t[a - 1 + 1..] == s[a + 1..];
          assert t[a - 1] == '@';
        }
        if LocalRest(t) {
          var a :| 0 <= a < |t| && t[a] == '@' && AllPlain(t[..a]) && IsDomain(t[a + 1..]);
          AllPlainCons(s[..a + 1]);
          assert s[..a + 1][1..] == t[..a];
          assert s[a + 1 + 1..] == t[a + 1..];
          assert s[a + 1] == '@';
        }
      }
    }
  }

  lemma ShapeToRegex(s: string)
    requires EmailShape(s)
    ensures RegexMatch(s)
  {
    var a :| 0 < a < |s| && s[a] == '@' && AllPlain(s[..a]) && IsDomain(s[a + 1..]);
    var r := s[a + 1..];
    var d :| 0 < d < |r| - 1 && r[d] == '.';
    assert s[a + 1 + d] == '.';
    assert s[a + 1..a + 1 + d] == r[..d];
    assert s[a + 1 + d + 1..] == r[d + 1..];
    assert AllPlain(r[..d]) && AllPlain(r[d + 1..]);
  }

  lemma RegexToShape(s: string)
    requires RegexMatch(s)
    ensures EmailShape(s)
  {
    var a, d :| 0 < a && a + 1 < d && d + 1 < |s| && s[a] == '@' && s[d] == '.' &&
                AllPlain(s[..a]) && AllPlain(s[a + 1..d]) && AllPlain(s[d + 1..]);
    var r := s[a + 1..];
    assert r[d - a - 1] == '.';
    forall i | 0 <= i < |r| ensures IsPlain(r[i]) {
      if i < d - a - 1 { assert r[i] == s[a + 1..d][i]; }
      else if i > d - a - 1 { assert r[i] == s[d + 1..][i - (d - a)]; }
    }
  }

  /** The shape `L + "@" + R` is the regular expression `A@B.C`, with
      `R = B + "." + C`. */
  lemma ShapeIffRegex(s: string)
    ensures EmailShape(s) <==> RegexMatch(s)
  {
    if EmailShape(s) { ShapeToRegex(s); }
    if RegexMatch(s) { RegexToShape(s); }
  }

  /** `validateEmail` accepts exactly what the regular expression matches. */
  lemma ValidEmailIffRegex(s: string)
    ensures IsValidEmail(s) <==> RegexMatch(s)
  {
    ValidEmailIffShape(s);
    ShapeIffRegex(s);
  }

  /** An accepted address has no whitespace, exactly one `@`, at least five
      characters, and so survives `trim()` unchanged. */
  lemma ValidEmailFacts(s: string)
    requires IsValidEmail(s)
    ensures NoWhitespace(s)
    ensures multiset(s)['@'] == 1
    ensures |s| >= 5
    ensures Trim(s) == s
  {
    ValidEmailIffShape(s);
    var a :| 0 < a < |s| && s[a] == '@' && AllPlain(s[..a]) && IsDomain(s[a + 1..]);
    var l, r := s[..a], s[a + 1..];
    assert s == l + [s[a]] + r;
    forall i | 0 <= i < |s| ensures !IsWhitespace(s[i]) {
      if i < a { assert s[i] == l[i]; } else if i > a { assert s[i] == r[i - a - 1]; }
    }
    assert forall i :: 0 <= i < |l| ==> l[i] != '@';
    assert forall i :: 0 <= i < |r| ==> r[i] != '@';
    assert '@' !in l && '@' !in r;
    assert multiset(s) == multiset(l) + multiset{'@'} + multiset(r);
    TrimNoWhitespace(s);
  }
}
