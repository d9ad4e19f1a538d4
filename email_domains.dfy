/** The campus email allow-list: an address is accepted when the text after
    its first `@` (up to any further `@`), lower-cased, is one of the allowed
    domains. */
module EmailDomains {
  import opened Util

  const AllowedDomains: seq<string> := ["ut.edu", "spartans.ut.edu"]

  /** `s.split(c)` for a one-character separator. */
  function Split(s: string, c: char): (parts: seq<string>)
    ensures |parts| >= 1
    ensures forall k :: 0 <= k < |parts| ==> c !in parts[k]
  {
    if s == [] then [""]
    else if s[0] == c then [""] + Split(s[1..], c)
    else
      var rest := Split(s[1..], c);
      [[s[0]] + rest[0]] + rest[1..]
  }

  /** `parts.join(c)`. */
  function Join(parts: seq<string>, c: char): string
    requires |parts| >= 1
  {
    if |parts| == 1 then parts[0] else parts[0] + [c] + Join(parts[1..], c)
  }

  /** Joining the pieces of a split with the separator gives back the string. */
  lemma {:induction false} JoinSplit(s: string, c: char)
    ensures Join(Split(s, c), c) == s
  {
    if s != [] {
      JoinSplit(s[1..], c);
      var rest := Split(s[1..], c);
      if s[0] != c && |rest| > 1 {
        assert Split(s, c)[1..] == rest[1..];
      }
    }
  }

  /** A separator-free prefix is glued onto the first piece. */
  lemma {:induction false} SplitPrefix(a: string, rest: string, c: char)
    requires c !in a
    ensures Split(a + rest, c) == [a + Split(rest, c)[0]] + Split(rest, c)[1..]
  {
    if a != [] {
      assert (a + rest)[1..] == a[1..] + rest;
      SplitPrefix(a[1..], rest, c);
      assert [a[0]] + (a[1..] + Split(rest, c)[0]) == a + Split(rest, c)[0];
    } else {
      assert a + rest == rest;
      var r := Split(rest, c);
      assert r == [r[0]] + r[1..];
      assert a + r[0] == r[0];
    }
  }

  /** Splitting separator-free pieces joined by the separator gives back the
      pieces. */
  lemma {:induction false} SplitJoin(parts: seq<string>, c: char)
    requires |parts| >= 1
    requires forall k :: 0 <= k < |parts| ==> c !in parts[k]
    ensures Split(Join(parts, c), c) == parts
  {
    if |parts| == 1 {
      SplitPrefix(parts[0], [], c);
      assert parts[0] + [] == parts[0];
    } else {
      var tail := Join(parts[1..], c);
      SplitJoin(parts[1..], c);
      assert parts[0] + [c] + tail == parts[0] + ([c] + tail);
      SplitPrefix(parts[0], [c] + tail, c);
      assert ([c] + tail)[1..] == tail;
      assert Split([c] + tail, c) == [""] + parts[1..];
      assert parts[0] + "" == parts[0];
      assert parts == [parts[0]] + parts[1..];
    }
  }

  /** `const [, domain = ''] = email.split('@')`. */
  function Domain(email: string): string {
    var parts := Split(email, '@');
    if |parts| >= 2 then parts[1] else ""
  }

  /** The domain is the text between the first and the second `@`. */
  lemma DomainIsSecondField(parts: seq<string>)
    requires |parts| >= 2
    requires forall k :: 0 <= k < |parts| ==> '@' !in parts[k]
    ensures Domain(Join(parts, '@')) == parts[1]
  {
    SplitJoin(parts, '@');
  }

  /** `isAllowedEmail`. */
  predicate IsAllowedEmail(email: string) {
    Domain(ToLower(email)) in AllowedDomains
  }

  /** The verdict depends only on the lower-cased address. */
  lemma AllowedIsCaseInsensitive(email: string)
    ensures IsAllowedEmail(ToLower(email)) == IsAllowedEmail(email)
  {
    ToLowerIdempotent(email);
  }

  /** An address without `@` has an empty domain and is refused. */
  lemma NoAtIsRefused(email: string)
    requires '@' !in email
    ensures Domain(email) == ""
    ensures !IsAllowedEmail(email)
  {
    SplitJoin([email], '@');
    var lower := ToLower(email);
    assert '@' !in lower by {
      forall i | 0 <= i < |lower|
        ensures lower[i] != '@'
      {
        assert email[i] in email;
      }
    }
    SplitJoin([lower], '@');
  }

  /** Lower-casing never creates an `@`. */
  lemma LowerKeepsNoAt(s: string)
    requires '@' !in s
    ensures '@' !in ToLower(s)
  {
    var lower := ToLower(s);
    forall i | 0 <= i < |lower|
      ensures lower[i] != '@'
    {
      assert s[i] in s;
    }
  }

  /** The domain of `local@rest` is the first `@`-piece of `rest`. */
  lemma DomainAfterFirstAt(local: string, rest: string)
    requires '@' !in local
    ensures Domain(local + "@" + rest) == Split(rest, '@')[0]
  {
    assert local + "@" + rest == local + (['@'] + rest);
    SplitPrefix(local, ['@'] + rest, '@');
    assert (['@'] + rest)[1..] == rest;
  }

  /** The first `@`-piece of `piece@more` is `piece`. */
  lemma FirstPiece(piece: string, more: string)
    requires '@' !in piece
    ensures Split(piece + "@" + more, '@')[0] == piece
  {
    assert piece + "@" + more == piece + (['@'] + more);
    SplitPrefix(piece, ['@'] + more, '@');
    assert (['@'] + more)[1..] == more;
  }

  /** Lower-casing `a@b` lower-cases `a` and `b` and keeps the `@`. */
  lemma LowerAround(a: string, b: string)
    ensures ToLower(a + "@" + b) == ToLower(a) + "@" + ToLower(b)
  {
    ToLowerConcat(a + "@", b);
    ToLowerConcat(a, "@");
    assert ToLower("@") == "@";
  }

  /** An address `local@domain` is accepted exactly when its lower-cased
      domain is on the list, whatever the local part. */
  lemma AllowedIffDomainListed(local: string, domain: string)
    requires '@' !in local && '@' !in domain
    ensures IsAllowedEmail(local + "@" + domain) <==> ToLower(domain) in AllowedDomains
  {
    LowerAround(local, domain);
    LowerKeepsNoAt(local);
    LowerKeepsNoAt(domain);
    DomainAfterFirstAt(ToLower(local), ToLower(domain));
    SplitJoin([ToLower(domain)], '@');
  }

  /** The domain of `local@domain@more` is `domain`. */
  lemma DomainOfTwoAts(local: string, domain: string, more: string)
    requires '@' !in local && '@' !in domain
    ensures Domain(local + "@" + domain + "@" + more) == domain
  {
    assert local + "@" + domain + "@" + more == local + "@" + (domain + "@" + more);
    DomainAfterFirstAt(local, domain + "@" + more);
    FirstPiece(domain, more);
  }

  /** Anything after a second `@` is ignored. */
  lemma FurtherPartsIgnored(local: string, domain: string, more: string)
    requires '@' !in local && '@' !in domain
    ensures IsAllowedEmail(local + "@" + domain + "@" + more) <==> ToLower(domain) in AllowedDomains
  {
    LowerAround(local + "@" + domain, more);
    LowerAround(local, domain);
    LowerKeepsNoAt(local);
    LowerKeepsNoAt(domain);
    DomainOfTwoAts(ToLower(local), ToLower(domain), ToLower(more));
  }

  // Examples, each for any local part without `@`, the empty one included.

  /** Both listed domains accept any local part. */
  lemma ListedDomainsAccepted(local: string)
    requires '@' !in local
    ensures IsAllowedEmail(local + "@" + "ut.edu")
    ensures IsAllowedEmail(local + "@" + "spartans.ut.edu")
  {
    ToLowerNoUpper("ut.edu");
    AllowedIffDomainListed(local, "ut.edu");
    ToLowerNoUpper("spartans.ut.edu");
    AllowedIffDomainListed(local, "spartans.ut.edu");
  }

  /** The domain is compared after lower-casing. */
  lemma UpperCaseDomainAccepted(local: string)
    requires '@' !in local
    ensures IsAllowedEmail(local + "@" + "UT.EDU")
  {
    assert ToLower("UT.EDU") == "ut.edu";
    AllowedIffDomainListed(local, "UT.EDU");
  }

  /** Whatever follows a second `@` does not matter. */
  lemma TrailingPartIgnored(local: string, more: string)
    requires '@' !in local
    ensures IsAllowedEmail(local + "@" + "ut.edu" + "@" + more)
  {
    ToLowerNoUpper("ut.edu");
    FurtherPartsIgnored(local, "ut.edu", more);
  }

  /** Another domain is refused, and so is a sub-domain of a listed one:
      the match is exact, not a suffix test. */
  lemma UnlistedDomainsRefused(local: string)
    requires '@' !in local
    ensures !IsAllowedEmail(local + "@" + "gmail.com")
    ensures !IsAllowedEmail(local + "@" + "x.ut.edu")
  {
    ToLowerNoUpper("gmail.com");
    AllowedIffDomainListed(local, "gmail.com");
    ToLowerNoUpper("x.ut.edu");
    AllowedIffDomainListed(local, "x.ut.edu");
  }
}
