/**
 * Merging the cookies that individual responses set into the envelope
 * response (`addResponseCookies`). Cookies are taken as already decoded
 * from their Set-Cookie headers.
 */
module Cookies {
  import opened Wrappers
  import opened Strings

  datatype Cookie = Cookie(name: string, value: string, domain: Option<string>, path: Option<string>)

  /** The domain as it takes part in a cookie's identity: lower-cased, or empty when absent. */
  function DomainPart(c: Cookie): string
  {
    if c.domain.Some? then ToLower(c.domain.value) else ""
  }

  /** The path as it takes part in a cookie's identity, or empty when absent. */
  function PathPart(c: Cookie): string
  {
    if c.path.Some? then c.path.value else ""
  }

  /** The key a cookie is stored under: `name;domain;path`, the domain lower-cased. */
  function CookieKey(c: Cookie): string
  {
    c.name + ";" + DomainPart(c) + ";" + PathPart(c)
  }

  /**
   * The map `addResponseCookies` leaves behind: each new cookie is put under
   * its key, in list order.
   */
  function MergeCookies(responseCookies: map<string, Cookie>, newCookies: seq<Cookie>): map<string, Cookie>
  {
    if newCookies == [] then responseCookies
    else
      var last := newCookies[|newCookies| - 1];
      MergeCookies(responseCookies, newCookies[..|newCookies| - 1])[CookieKey(last) := last]
  }

  /** The merged map holds the old keys and the key of every new cookie, and nothing else. */
  lemma {:induction false} MergeCookiesKeys(responseCookies: map<string, Cookie>, newCookies: seq<Cookie>)
    ensures MergeCookies(responseCookies, newCookies).Keys
            == responseCookies.Keys + set c | c in newCookies :: CookieKey(c)
  {
    var n := |newCookies|;
    if n > 0 {
      MergeCookiesKeys(responseCookies, newCookies[..n - 1]);
      assert newCookies == newCookies[..n - 1] + [newCookies[n - 1]];
    }
  }

  /** Last write wins: a cookie no later cookie shares a key with is the one kept. */
  lemma {:induction false} LastCookieWins(responseCookies: map<string, Cookie>, newCookies: seq<Cookie>, i: nat)
    requires i < |newCookies|
    requires forall j :: i < j < |newCookies| ==> CookieKey(newCookies[j]) != CookieKey(newCookies[i])
    ensures CookieKey(newCookies[i]) in MergeCookies(responseCookies, newCookies)
    ensures MergeCookies(responseCookies, newCookies)[CookieKey(newCookies[i])] == newCookies[i]
  {
    var n := |newCookies|;
    if i < n - 1 {
      LastCookieWins(responseCookies, newCookies[..n - 1], i);
    }
  }

  /** Entries under keys no new cookie has are left as they were. */
  lemma {:induction false} OtherCookiesUnchanged(responseCookies: map<string, Cookie>, newCookies: seq<Cookie>, key: string)
    requires forall c :: c in newCookies ==> CookieKey(c) != key
    ensures key in MergeCookies(responseCookies, newCookies) <==> key in responseCookies
    ensures key in responseCookies ==> MergeCookies(responseCookies, newCookies)[key] == responseCookies[key]
  {
    var n := |newCookies|;
    if n > 0 {
      OtherCookiesUnchanged(responseCookies, newCookies[..n - 1], key);
    }
  }

  /** Merging two lists one after the other is merging their concatenation. */
  lemma {:induction false} MergeCookiesAppend(responseCookies: map<string, Cookie>, first: seq<Cookie>, second: seq<Cookie>)
    ensures MergeCookies(responseCookies, first + second) == MergeCookies(MergeCookies(responseCookies, first), second)
  {
    if second == [] {
      assert first + second == first;
    } else {
      var n := |second|;
      var last := second[n - 1];
      var whole := first + second;
      assert whole[|whole| - 1] == last;
      assert whole[..|whole| - 1] == first + second[..n - 1];
      calc {
        MergeCookies(responseCookies, whole);
        MergeCookies(responseCookies, first + second[..n - 1])[CookieKey(last) := last];
        { MergeCookiesAppend(responseCookies, first, second[..n - 1]); }
        MergeCookies(MergeCookies(responseCookies, first), second[..n - 1])[CookieKey(last) := last];
        MergeCookies(MergeCookies(responseCookies, first), second);
      }
    }
  }

  /** Cookies that differ only in the case of their domain collide. */
  lemma DomainCaseCollides(a: Cookie, b: Cookie)
    requires a.name == b.name && a.path == b.path
    requires a.domain.Some? && b.domain.Some? && EqualsIgnoreCase(a.domain.value, b.domain.value)
    ensures CookieKey(a) == CookieKey(b)
  {
  }

  /** Neither the name nor the domain holds the `;` separator. */
  predicate Unambiguous(c: Cookie)
  {
    ';' !in c.name && (c.domain.Some? ==> ';' !in c.domain.value)
  }

  /** Two strings joined by `;` can be split again when the first holds no `;`. */
  lemma SplitAtSeparator(x: string, y: string, x': string, y': string)
    requires ';' !in x && ';' !in x'
    requires x + ";" + y == x' + ";" + y'
    ensures x == x' && y == y'
  {
    var s := x + ";" + y;
    assert forall k :: 0 <= k < |x| ==> s[k] == x[k] && s[k] != ';';
    assert forall k :: 0 <= k < |x'| ==> s[k] == x'[k] && s[k] != ';';
    assert s[|x|] == ';' && s[|x'|] == ';';
    assert x == s[..|x|] == x';
    assert y == s[|x| + 1..] == y';
  }

  /**
   * For cookies whose name and domain hold no `;`, two cookies share a key
   * exactly when they agree on name, lower-cased domain and path (an absent
   * domain or path counting as empty).
   */
  lemma KeyIsIdentity(a: Cookie, b: Cookie)
    requires Unambiguous(a) && Unambiguous(b)
    ensures CookieKey(a) == CookieKey(b) <==>
            a.name == b.name && DomainPart(a) == DomainPart(b) && PathPart(a) == PathPart(b)
  {
    if CookieKey(a) == CookieKey(b) {
      assert ';' !in DomainPart(a) && ';' !in DomainPart(b) by {
        if a.domain.Some? { ToLowerKeepsSeparator(a.domain.value); }
        if b.domain.Some? { ToLowerKeepsSeparator(b.domain.value); }
      }
      assert CookieKey(a) == a.name + ";" + (DomainPart(a) + ";" + PathPart(a));
      assert CookieKey(b) == b.name + ";" + (DomainPart(b) + ";" + PathPart(b));
      SplitAtSeparator(a.name, DomainPart(a) + ";" + PathPart(a), b.name, DomainPart(b) + ";" + PathPart(b));
      SplitAtSeparator(DomainPart(a), PathPart(a), DomainPart(b), PathPart(b));
    }
  }

  /** Lower-casing neither adds nor removes a `;`. */
  lemma ToLowerKeepsSeparator(s: string)
    ensures ';' in ToLower(s) <==> ';' in s
  {
    if ';' in s {
      var i :| 0 <= i < |s| && s[i] == ';';
      assert ToLower(s)[i] == ';';
    }
    if ';' in ToLower(s) {
      var i :| 0 <= i < |s| && ToLower(s)[i] == ';';
      assert s[i] == ';';
    }
  }
}
