/**
 * The e-mail shape test of the submit handler, `/^[^\s@]+@[^\s@]+\.[^\s@]+$/`.
 * EmailPattern states what the regular expression matches; EmailOk decides it by
 * locating the '@' and checking what lies on each side of it.
 */
module Email {
  import opened Options
  import opened Chars

  /** The regex class `[^\s@]`. */
  predicate Plain(c: char) {
    !IsWs(c) && c != '@'
  }

  predicate AllPlain(t: string) {
    forall k :: 0 <= k < |t| ==> Plain(t[k])
  }

  /** What the regular expression matches, position by position: an '@' at `a`, a '.' at `b`,
      at least one character before the '@', between the two and after the '.', and every
      character other than the '@' in `[^\s@]` (the '.' is in that class too). */
  ghost predicate EmailPattern(s: string) {
    exists a, b :: 0 < a && a + 1 < b && b + 1 < |s| && s[a] == '@' && s[b] == '.' &&
      forall k :: 0 <= k < |s| && k != a ==> Plain(s[k])
  }

  /** The first position of `c` in `s`, if any. */
  function IndexOf(s: string, c: char): (r: Option<nat>)
    ensures r.Some? ==> r.value < |s| && s[r.value] == c && forall k :: 0 <= k < r.value ==> s[k] != c
    ensures r.None? ==> forall k :: 0 <= k < |s| ==> s[k] != c
  {
    if s == [] then None
    else if s[0] == c then Some(0)
    else match IndexOf(s[1..], c)
      case None => None
      case Some(i) => Some(i + 1)
  }

  /** `[^\s@]+\.[^\s@]+`: the part after the '@'. */
  predicate DomainOk(d: string) {
    AllPlain(d) && exists b :: 0 < b < |d| - 1 && d[b] == '.'
  }

  /** The regex test, decided by splitting at the first '@'. */
  predicate EmailOk(s: string) {
    match IndexOf(s, '@')
    case None => false
    case Some(a) => 0 < a && AllPlain(s[..a]) && DomainOk(s[a + 1..])
  }

  /** A slice whose every character is in `[^\s@]`. */
  lemma AllPlainSlice(s: string, lo: nat, hi: nat)
    requires lo <= hi <= |s|
    requires forall k :: lo <= k < hi ==> Plain(s[k])
    ensures AllPlain(s[lo..hi])
  {
    var t := s[lo..hi];
    forall k | 0 <= k < |t| ensures Plain(t[k]) {
      assert t[k] == s[lo + k];
    }
  }

  /** Every string the decision procedure accepts matches the regular expression. */
  lemma EmailOkIsPattern(s: string)
    requires EmailOk(s)
    ensures EmailPattern(s)
  {
    var a := IndexOf(s, '@').value;
    var d := s[a + 1..];
    var b :| 0 < b < |d| - 1 && d[b] == '.';
    assert s[a + 1 + b] == '.';
    forall k | 0 <= k < |s| && k != a ensures Plain(s[k]) {
      if k < a {
        assert s[..a][k] == s[k];
      } else {
        assert d[k - a - 1] == s[k];
      }
    }
  }

  /** Every string the regular expression matches is accepted by the decision procedure. */
  lemma PatternIsEmailOk(s: string)
    requires EmailPattern(s)
    ensures EmailOk(s)
  {
    var a, b :| 0 < a && a + 1 < b && b + 1 < |s| && s[a] == '@' && s[b] == '.' &&
      forall k :: 0 <= k < |s| && k != a ==> Plain(s[k]);
    var i := IndexOf(s, '@');
    assert i.Some?;
    assert !Plain(s[i.value]);
    assert i.value == a;
    AllPlainSlice(s, 0, a);
    AllPlainSlice(s, a + 1, |s|);
    var d := s[a + 1..];
    assert s[..a] == s[0..a];
    assert d == s[a + 1..|s|];
    assert d[b - a - 1] == '.';
  }

  /** The decision procedure agrees with the regular expression on every string. */
  lemma EmailOkMatchesPattern(s: string)
    ensures EmailOk(s) <==> EmailPattern(s)
  {
    if EmailOk(s) {
      EmailOkIsPattern(s);
    }
    if EmailPattern(s) {
      PatternIsEmailOk(s);
    }
  }

  /** Every local part, domain and suffix built from `[^\s@]` characters gives an accepted address. */
  lemma EmailAcceptsParts(local: string, domain: string, tld: string)
    requires local != [] && domain != [] && tld != []
    requires AllPlain(local) && AllPlain(domain) && AllPlain(tld)
    ensures EmailOk(local + "@" + domain + "." + tld)
  {
    var s := local + "@" + domain + "." + tld;
    var a := |local|;
    var b := |local| + 1 + |domain|;
    assert s[a] == '@';
    assert s[b] == '.';
    forall k | 0 <= k < |s| && k != a ensures Plain(s[k]) {
      if k < a {
        assert s[k] == local[k];
      } else if k < b {
        assert s[k] == domain[k - a - 1];
      } else if k == b {
        assert s[k] == '.';
      } else {
        assert s[k] == tld[k - b - 1];
      }
    }
    assert EmailPattern(s);
    EmailOkMatchesPattern(s);
  }

  /** The three parts of an accepted address. */
  datatype EmailShape = EmailShape(local: string, domain: string, tld: string)

  /** Cutting a match at its '@' and its '.' gives three non-empty `[^\s@]` parts. */
  lemma PatternSplit(s: string, a: nat, b: nat)
    requires 0 < a && a + 1 < b && b + 1 < |s| && s[a] == '@' && s[b] == '.'
    requires forall k :: 0 <= k < |s| && k != a ==> Plain(s[k])
    ensures AllPlain(s[..a]) && AllPlain(s[a + 1..b]) && AllPlain(s[b + 1..])
    ensures s == s[..a] + "@" + s[a + 1..b] + "." + s[b + 1..]
  {
    assert AllPlain(s[..a]) by {
      forall k | 0 <= k < a ensures Plain(s[..a][k]) { assert s[..a][k] == s[k]; }
    }
    var d, t := s[a + 1..b], s[b + 1..];
    assert AllPlain(d) by {
      forall k | 0 <= k < |d| ensures Plain(d[k]) { assert d[k] == s[a + 1 + k]; }
    }
    assert AllPlain(t) by {
      forall k | 0 <= k < |t| ensures Plain(t[k]) { assert t[k] == s[b + 1 + k]; }
    }
    assert s[..a] + "@" + s[a + 1..b] + "." + s[b + 1..] == s[..a] + s[a..b] + s[b..];
    assert s[..a] + s[a..b] + s[b..] == s;
  }

  /** Conversely, every accepted address splits as local@domain.tld with non-empty
      `[^\s@]` parts. */
  ghost function EmailParts(s: string): (p: EmailShape)
    requires EmailOk(s)
    ensures p.local != [] && p.domain != [] && p.tld != []
    ensures AllPlain(p.local) && AllPlain(p.domain) && AllPlain(p.tld)
    ensures s == p.local + "@" + p.domain + "." + p.tld
  {
    EmailOkMatchesPattern(s);
    var a, b :| 0 < a && a + 1 < b && b + 1 < |s| && s[a] == '@' && s[b] == '.' &&
      forall k :: 0 <= k < |s| && k != a ==> Plain(s[k]);
    PatternSplit(s, a, b);
    EmailShape(s[..a], s[a + 1..b], s[b + 1..])
  }

  /** No character of a `[^\s@]` string is an '@'. */
  lemma PlainHasNoAt(t: string)
    requires AllPlain(t)
    ensures multiset(t)['@'] == 0
  {
    assert '@' !in t;
  }

  /** An accepted address holds exactly one '@'. */
  lemma EmailSingleAt(s: string)
    requires EmailOk(s)
    ensures multiset(s)['@'] == 1
  {
    var p := EmailParts(s);
    PlainHasNoAt(p.local);
    PlainHasNoAt(p.domain);
    PlainHasNoAt(p.tld);
    assert multiset(s) == multiset(p.local) + multiset{'@'} + multiset(p.domain) + multiset{'.'} + multiset(p.tld);
  }

  /** An accepted address has a '.' after its '@', neither right after the '@' nor last. */
  lemma EmailDotAfterAt(s: string, a: nat)
    requires EmailOk(s) && a < |s| && s[a] == '@'
    ensures exists b :: a + 1 < b < |s| - 1 && s[b] == '.'
  {
    EmailOkMatchesPattern(s);
    var a', b :| 0 < a' && a' + 1 < b && b + 1 < |s| && s[a'] == '@' && s[b] == '.' &&
      forall k :: 0 <= k < |s| && k != a' ==> Plain(s[k]);
    assert !Plain(s[a]);
    assert a == a';
  }

  /** The simplest accepted address. */
  lemma EmailAcceptsSimple()
    ensures EmailOk("a@b.com")
  {
    var l, d, t := "a", "b", "com";
    PlainWord(l);
    PlainWord(d);
    PlainWord(t);
    EmailAcceptsParts(l, d, t);
    assert l + "@" + d + "." + t == "a@b.com";
  }

  /** Two `[^\s@]` strings joined by a '.' are still `[^\s@]`: dots may appear anywhere. */
  lemma AllPlainDotted(x: string, y: string)
    requires AllPlain(x) && AllPlain(y)
    ensures AllPlain(x + "." + y)
  {
    var t := x + "." + y;
    forall k | 0 <= k < |t| ensures Plain(t[k]) {
      if k < |x| {
        assert t[k] == x[k];
      } else if k > |x| {
        assert t[k] == y[k - |x| - 1];
      }
    }
  }

  /** Dots may appear in the local part and in the domain: every l1.l2@d1.d2.tld with non-empty
      `[^\s@]` pieces is accepted. */
  lemma EmailAcceptsDotted(l1: string, l2: string, d1: string, d2: string, tld: string)
    requires l1 != [] && d1 != [] && tld != []
    requires AllPlain(l1) && AllPlain(l2) && AllPlain(d1) && AllPlain(d2) && AllPlain(tld)
    ensures EmailOk(l1 + "." + l2 + "@" + d1 + "." + d2 + "." + tld)
  {
    var l, d := l1 + "." + l2, d1 + "." + d2;
    AllPlainDotted(l1, l2);
    AllPlainDotted(d1, d2);
    EmailAcceptsParts(l, d, tld);
    assert l + "@" + d + "." + tld == l1 + "." + l2 + "@" + d1 + "." + d2 + "." + tld;
  }

  /** A string of ASCII letters and dots lies in `[^\s@]`. */
  lemma PlainWord(w: string)
    requires forall k :: 0 <= k < |w| ==> ('a' <= w[k] <= 'z' || w[k] == '.')
    ensures AllPlain(w)
  {
  }

  /** Without an '@' there is no match. */
  lemma EmailRejectsNoAt(s: string)
    requires '@' !in s
    ensures !EmailOk(s)
  {
  }

  /** Without a '.' after an '@' there is no match. */
  lemma EmailRejectsNoDot(s: string, a: nat)
    requires a < |s| && s[a] == '@'
    requires forall k :: a < k < |s| ==> s[k] != '.'
    ensures !EmailOk(s)
  {
    if EmailOk(s) {
      EmailDotAfterAt(s, a);
    }
  }

  /** An address that starts with its '@' has an empty local part and fails. */
  lemma EmailRejectsEmptyLocal(s: string)
    requires s != [] && s[0] == '@'
    ensures !EmailOk(s)
  {
  }

  /** A '.' right after the '@' does not count: when it is the only '.' after the '@',
      the address fails. */
  lemma EmailRejectsDotAfterAt(s: string, a: nat)
    requires a < |s| && s[a] == '@'
    requires forall k :: a + 1 < k < |s| ==> s[k] != '.'
    ensures !EmailOk(s)
  {
    if EmailOk(s) {
      EmailDotAfterAt(s, a);
    }
  }

  /** A final '.' does not count: when it is the only '.' after the '@', the address fails. */
  lemma EmailRejectsDotLast(s: string, a: nat)
    requires a < |s| && s[a] == '@'
    requires forall k :: a < k < |s| - 1 ==> s[k] != '.'
    ensures !EmailOk(s)
  {
    if EmailOk(s) {
      EmailDotAfterAt(s, a);
    }
  }

  /** Any whitespace character anywhere fails the address. */
  lemma EmailRejectsSpace(s: string, k: nat)
    requires k < |s| && IsWs(s[k])
    ensures !EmailOk(s)
  {
    if EmailOk(s) {
      EmailOkMatchesPattern(s);
    }
  }

  /** Any second '@' fails the address. */
  lemma EmailRejectsTwoAts(s: string, i: nat, j: nat)
    requires i < j < |s| && s[i] == '@' && s[j] == '@'
    ensures !EmailOk(s)
  {
    if EmailOk(s) {
      EmailOkMatchesPattern(s);
    }
  }
}
