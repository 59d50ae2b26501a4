/**
 * The browser's cookie jar as the navigation bar sees it: an ordered list of name/value pairs
 * that `document.cookie` renders as `n1=v1; n2=v2`, and that the logout handler expires
 * entries of.
 */
module CookieJar {
  import opened Nullable
  import opened Cookies

  datatype Cookie = Cookie(name: string, value: string)

  /** A cookie name is a non-empty token: no '=', ';' or space (section 4.1.1 of RFC 6265). */
  predicate ValidName(n: string) {
    n != [] && '=' !in n && ';' !in n && ' ' !in n
  }

  /** A cookie value holds no ';' and no space (cookie-octet, section 4.1.1 of RFC 6265). */
  predicate ValidValue(v: string) {
    ';' !in v && ' ' !in v
  }

  predicate WellFormed(jar: seq<Cookie>) {
    forall c :: c in jar ==> ValidName(c.name) && ValidValue(c.value)
  }

  /** One `name=value` pair as `document.cookie` writes it. */
  function Pair(c: Cookie): string {
    c.name + "=" + c.value
  }

  /** The string `document.cookie` returns for the jar: the pairs joined by `; `. */
  function Header(jar: seq<Cookie>): string {
    if jar == [] then ""
    else if |jar| == 1 then Pair(jar[0])
    else Pair(jar[0]) + "; " + Header(jar[1..])
  }

  /**
   * Reference lookup: the value of the first cookie named `name` whose value is non-empty,
   * or `null` when there is none.
   */
  function Lookup(jar: seq<Cookie>, name: string): (r: Option<string>)
    ensures r.None? <==> forall c :: c in jar && c.name == name ==> c.value == []
    ensures r.Some? ==> r.value != [] && Cookie(name, r.value) in jar
  {
    if jar == [] then None
    else if jar[0].name == name && jar[0].value != [] then Some(jar[0].value)
    else Lookup(jar[1..], name)
  }

  /** Expiring a cookie (`name=; Max-Age=0; path=/`) removes every entry of that name and keeps every other entry. */
  function RemoveCookie(jar: seq<Cookie>, name: string): (r: seq<Cookie>)
    ensures forall c :: c in r <==> c in jar && c.name != name
    ensures |r| <= |jar|
    ensures (forall c :: c in jar ==> c.name != name) ==> r == jar
  {
    if jar == [] then []
    else if jar[0].name == name then RemoveCookie(jar[1..], name)
    else [jar[0]] + RemoveCookie(jar[1..], name)
  }

  /** Expiring a cookie keeps the jar well formed. */
  lemma RemoveCookieKeepsWellFormed(jar: seq<Cookie>, name: string)
    requires WellFormed(jar)
    ensures WellFormed(RemoveCookie(jar, name))
  {
  }

  /** Expiring `name` leaves the lookup of every other name as it was. */
  lemma {:induction false} LookupAfterRemove(jar: seq<Cookie>, name: string, other: string)
    ensures Lookup(RemoveCookie(jar, name), other) == if other == name then None else Lookup(jar, other)
  {
    if jar != [] {
      LookupAfterRemove(jar[1..], name, other);
      if jar[0].name != name {
        assert ([jar[0]] + RemoveCookie(jar[1..], name))[1..] == RemoveCookie(jar[1..], name);
      }
    }
  }

  /**
   * No index inside the first pair (nor the ';' after it) starts a match for `name`, unless
   * that pair is itself `name` with a non-empty value.
   */
  lemma NoMatchInsidePair(c: Cookie, name: string, t: string, j: nat)
    requires ValidName(c.name) && ValidValue(c.value) && ValidName(name)
    requires !(c.name == name && c.value != [])
    requires t == [] || t[0] == ';'
    requires j <= |Pair(c)| + 1
    ensures !MatchesAt(name, Pair(c) + t, j)
  {
    var s := Pair(c) + t;
    if j == 0 && |name| + 1 < |s| {
      if |name| < |c.name| {
        assert c.name[|name|] in c.name;
        assert s[..|name| + 1][|name|] != (name + "=")[|name|];
      } else if |name| > |c.name| {
        assert name[|c.name|] in name;
        assert s[..|name| + 1][|c.name|] != (name + "=")[|c.name|];
      } else if c.name != name {
        assert s[..|name| + 1][..|name|] != (name + "=")[..|name|];
      }
    }
  }

  /** A pair `name=value` with a non-empty value is matched at index 0 and its value captured. */
  lemma FirstPairMatches(c: Cookie, name: string, t: string)
    requires c.name == name && c.value != [] && ValidValue(c.value)
    requires t == [] || t[0] == ';'
    ensures Scan(name, Pair(c) + t, 0) == Some(c.value)
  {
    var s := Pair(c) + t;
    assert s == name + "=" + (c.value + t);
    assert s[..|name| + 1] == name + "=";
    assert c.value[0] in c.value;
    assert MatchesAt(name, s, 0);
    assert s[|name| + 1..] == c.value + t;
    TakeUntilSemicolonOfValue(c.value, t);
  }

  /** A lone pair that is not `name` with a non-empty value yields nothing. */
  lemma ScanSkipsLonePair(c: Cookie, name: string)
    requires ValidName(c.name) && ValidValue(c.value) && ValidName(name)
    requires !(c.name == name && c.value != [])
    ensures Scan(name, Pair(c), 0) == None
  {
    forall j: nat ensures !MatchesAt(name, Pair(c) + "", j) {
      if j <= |Pair(c)| + 1 {
        NoMatchInsidePair(c, name, "", j);
      }
    }
    assert Pair(c) + "" == Pair(c);
    ScanFindsLeftmost(name, Pair(c), 0);
  }

  /** A first pair that is not `name` with a non-empty value is passed over: the scan goes on in the rest. */
  lemma ScanSkipsFirstPair(c: Cookie, name: string, rest: string)
    requires ValidName(c.name) && ValidValue(c.value) && ValidName(name)
    requires !(c.name == name && c.value != [])
    ensures Scan(name, Pair(c) + "; " + rest, 0) == Scan(name, rest, 0)
  {
    var p := Pair(c) + "; ";
    assert Pair(c) + ("; " + rest) == p + rest;
    forall j: nat | j < |p| ensures !MatchesAt(name, p + rest, j) {
      NoMatchInsidePair(c, name, "; " + rest, j);
    }
    ScanSkip(name, p + rest, 0, |p|);
    ScanShift(name, p, rest, 0);
  }

  /** The scan over `document.cookie` of a well-formed jar finds the reference lookup. */
  lemma {:induction false} ScanReadsJar(jar: seq<Cookie>, name: string)
    requires WellFormed(jar) && ValidName(name)
    ensures Scan(name, Header(jar), 0) == Lookup(jar, name)
  {
    if jar == [] {
      assert Scan(name, Header(jar), 0) == None;
    } else {
      var c := jar[0];
      var rest := jar[1..];
      assert c in jar;
      if c.name == name && c.value != [] {
        var t: string := if |jar| == 1 then "" else "; " + Header(rest);
        assert Header(jar) == Pair(c) + t;
        FirstPairMatches(c, name, t);
      } else if |jar| == 1 {
        ScanSkipsLonePair(c, name);
      } else {
        ScanSkipsFirstPair(c, name, Header(rest));
        assert WellFormed(rest) by {
          forall d | d in rest ensures ValidName(d.name) && ValidValue(d.value) {
            assert d in jar;
          }
        }
        ScanReadsJar(rest, name);
      }
    }
  }

  /**
   * On a well-formed jar, `getCookie(name)` over `document.cookie` returns exactly the
   * reference lookup: the first cookie of that name with a non-empty value.
   */
  lemma GetCookieReadsJar(jar: seq<Cookie>, name: string)
    requires WellFormed(jar) && ValidName(name)
    ensures GetCookie(name, Header(jar)) == Lookup(jar, name)
  {
    ScanReadsJar(jar, name);
  }

  /**
   * An occurrence with an empty value does not stop the lookup: `name=; name=v` yields v
   * (for `access_token=; access_token=abc`, the value `abc`).
   */
  lemma EmptyValueFallsThrough(name: string, v: string)
    requires ValidName(name) && ValidValue(v) && v != []
    ensures GetCookie(name, name + "=; " + name + "=" + v) == Some(v)
  {
    var jar := [Cookie(name, ""), Cookie(name, v)];
    assert WellFormed(jar) by {
      forall c | c in jar ensures ValidName(c.name) && ValidValue(c.value) {
        assert c == jar[0] || c == jar[1];
      }
    }
    assert Header(jar) == name + "=; " + name + "=" + v;
    ScanReadsJar(jar, name);
  }

  /**
   * A name glued to preceding characters is not matched: with a prefix p that holds no space
   * and no '=', `p name=v` yields `null` (for `x_access_token=abc`, p is `x_`).
   */
  lemma GluedNameIsNotMatched(p: string, name: string, v: string)
    requires p != [] && ' ' !in p && '=' !in p
    requires ValidName(name) && ValidValue(v)
    ensures GetCookie(name, p + name + "=" + v) == None
  {
    var s := p + name + "=" + v;
    assert ' ' !in s;
    forall j: nat ensures !MatchesAt(name, s, j) {
      if j == 0 && |name| + 1 < |s| {
        assert s[|name|] in p + name;
        assert s[..|name| + 1][|name|] != (name + "=")[|name|];
      } else if 0 < j < |s| {
        assert s[j - 1] in s;
      }
    }
  }
}
