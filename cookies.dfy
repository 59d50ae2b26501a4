/**
 * Cookie lookup of the navigation bar (`getCookie`): the value of the leftmost match of the
 * regular expression `(^| )NAME=([^;]+)` in a `document.cookie` string, or `null`.
 * The match is modelled as an explicit scan from left to right.
 */
module Cookies {
  import opened Nullable

  /**
   * The regular expression `(^| )name=([^;]+)` matches with `name=` starting at index k of s:
   * k is the start of s or follows a space, and at least one character other than ';' comes
   * after the `=`.
   */
  predicate MatchesAt(name: string, s: string, k: nat) {
    && k + |name| + 1 < |s|
    && (k == 0 || s[k - 1] == ' ')
    && s[k..k + |name| + 1] == name + "="
    && s[k + |name| + 1] != ';'
  }

  /**
   * v is what the group `([^;]+)` captures for the match at k: the non-empty run of
   * characters after `name=` that stops at the next ';' or at the end of s.
   */
  predicate CapturedAt(name: string, s: string, k: nat, v: string) {
    var start := k + |name| + 1;
    && v != []
    && start + |v| <= |s|
    && s[start..start + |v|] == v
    && ';' !in v
    && (start + |v| == |s| || s[start + |v|] == ';')
  }

  /** The longest prefix of t without a ';' (what `[^;]+` consumes greedily). */
  function TakeUntilSemicolon(t: string): (v: string)
    ensures |v| <= |t| && v == t[..|v|]
    ensures ';' !in v
    ensures |v| == |t| || t[|v|] == ';'
  {
    if t == [] || t[0] == ';' then [] else [t[0]] + TakeUntilSemicolon(t[1..])
  }

  /** The scan: try every start index from k on, leftmost first. */
  function Scan(name: string, s: string, k: nat): Option<string>
    decreases |s| - k
  {
    if |s| <= k + |name| + 1 then None
    else if MatchesAt(name, s, k) then Some(TakeUntilSemicolon(s[k + |name| + 1..]))
    else Scan(name, s, k + 1)
  }

  /**
   * The scan from k finds nothing exactly when no index from k on matches; otherwise it
   * returns the text captured at the leftmost matching index from k on.
   */
  lemma {:induction false} ScanFindsLeftmost(name: string, s: string, k: nat)
    ensures Scan(name, s, k).None? <==> forall j: nat :: k <= j ==> !MatchesAt(name, s, j)
    ensures Scan(name, s, k).Some? ==> exists j: nat ::
      && k <= j
      && MatchesAt(name, s, j)
      && (forall i: nat :: k <= i < j ==> !MatchesAt(name, s, i))
      && CapturedAt(name, s, j, Scan(name, s, k).value)
    decreases |s| - k
  {
    if |s| <= k + |name| + 1 {
    } else if MatchesAt(name, s, k) {
      var start := k + |name| + 1;
      var v := TakeUntilSemicolon(s[start..]);
      assert v != [] by { assert s[start..][0] == s[start]; }
      assert s[start..start + |v|] == v;
      assert CapturedAt(name, s, k, v);
    } else {
      ScanFindsLeftmost(name, s, k + 1);
      if Scan(name, s, k + 1).Some? {
        var j: nat :| && k + 1 <= j
                      && MatchesAt(name, s, j)
                      && (forall i: nat :: k + 1 <= i < j ==> !MatchesAt(name, s, i))
                      && CapturedAt(name, s, j, Scan(name, s, k + 1).value);
        assert forall i: nat :: k <= i < j ==> !MatchesAt(name, s, i);
      }
    }
  }

  /**
   * `getCookie(name)` over the cookie string s: `null` exactly when the pattern matches nowhere,
   * otherwise the text captured at the leftmost match.
   */
  function GetCookie(name: string, s: string): (r: Option<string>)
    ensures r.None? <==> forall k: nat :: !MatchesAt(name, s, k)
    ensures r.Some? ==> exists k: nat ::
      && MatchesAt(name, s, k)
      && (forall j: nat :: j < k ==> !MatchesAt(name, s, j))
      && CapturedAt(name, s, k, r.value)
  {
    ScanFindsLeftmost(name, s, 0);
    Scan(name, s, 0)
  }

  /** A value that stops at a ';' (or at the end) is what the greedy `[^;]+` reads back. */
  lemma {:induction false} TakeUntilSemicolonOfValue(v: string, t: string)
    requires ';' !in v
    requires t == [] || t[0] == ';'
    ensures TakeUntilSemicolon(v + t) == v
  {
    if v == [] {
    } else {
      assert (v + t)[1..] == v[1..] + t;
      TakeUntilSemicolonOfValue(v[1..], t);
    }
  }

  /** Indices with no match can be skipped: the scan from k returns what the scan from m does. */
  lemma {:induction false} ScanSkip(name: string, s: string, k: nat, m: nat)
    requires k <= m
    requires forall j: nat :: k <= j < m ==> !MatchesAt(name, s, j)
    ensures Scan(name, s, k) == Scan(name, s, m)
    decreases m - k
  {
    if k < m && k + |name| + 1 < |s| {
      ScanSkip(name, s, k + 1, m);
    }
  }

  /** After a prefix that ends in a space, a match at |p| + k in p + t is a match at k in t. */
  lemma MatchesAtShift(name: string, p: string, t: string, k: nat)
    requires p != [] && p[|p| - 1] == ' '
    ensures MatchesAt(name, p + t, |p| + k) == MatchesAt(name, t, k)
  {
  }

  /**
   * A prefix that ends in a space does not change what the scan finds in the rest of the
   * string: the scan of p + t from |p| + k returns what the scan of t from k does.
   */
  lemma {:induction false} ScanShift(name: string, p: string, t: string, k: nat)
    requires p != [] && p[|p| - 1] == ' '
    ensures Scan(name, p + t, |p| + k) == Scan(name, t, k)
    decreases |t| - k
  {
    var s := p + t;
    assert |s| == |p| + |t|;
    if k + |name| + 1 < |t| {
      MatchesAtShift(name, p, t, k);
      if MatchesAt(name, t, k) {
        assert s[|p| + k + |name| + 1..] == t[k + |name| + 1..];
      } else {
        assert Scan(name, s, |p| + k) == Scan(name, s, |p| + (k + 1));
        assert Scan(name, t, k) == Scan(name, t, k + 1);
        ScanShift(name, p, t, k + 1);
      }
    }
  }

  /** `access_token=;` has no value: the group needs at least one non-';' character. */
  lemma EmptyValueIsNull()
    ensures GetCookie("access_token", "access_token=;") == None
  {
  }
}
