/**
 * Token extraction. The filter obtains the token from the Authorization value
 * by a literal replace-all of `Bearer ` with the empty string: every
 * non-overlapping occurrence, found scanning left to right, is removed.
 * It is not the case-insensitive scheme parse of section 2.1 of RFC 6750.
 */
module BearerScheme {

  /** The literal text the filter removes. */
  const Scheme: string := "Bearer "

  /** `Scheme` starts at position `i` of `s`. */
  predicate OccursAt(s: string, i: nat)
  {
    i + |Scheme| <= |s| && s[i..i + |Scheme|] == Scheme
  }

  /** The number of positions of `s` at which `Scheme` starts, overlapping or not. */
  function Occurrences(s: string): nat
  {
    if s == [] then 0
    else (if OccursAt(s, 0) then 1 else 0) + Occurrences(s[1..])
  }

  /** Replace-all of `Scheme` by the empty string, left to right. */
  function Strip(s: string): (r: string)
    ensures |r| <= |s|
  {
    if s == [] then []
    else if OccursAt(s, 0) then Strip(s[|Scheme|..])
    else [s[0]] + Strip(s[1..])
  }

  lemma OccursAtTail(s: string, i: nat)
    requires s != []
    ensures OccursAt(s, i + 1) == OccursAt(s[1..], i)
  {
    if i + 1 + |Scheme| <= |s| {
      assert s[i + 1..i + 1 + |Scheme|] == s[1..][i..i + |Scheme|];
    }
  }

  /** Inside an occurrence no other occurrence starts: `B` is only at index 0 of `Scheme`. */
  lemma {:induction false} OccurrencesSkipScheme(s: string, k: nat)
    requires OccursAt(s, 0) && 1 <= k <= |Scheme|
    ensures Occurrences(s[1..]) == Occurrences(s[k..])
  {
    if k > 1 {
      OccurrencesSkipScheme(s, k - 1);
      var t := s[k - 1..];
      assert t[0] == Scheme[k - 1] != 'B';
      assert !OccursAt(t, 0);
      assert t[1..] == s[k..];
    }
  }

  /** Every occurrence is removed: the result is 7 characters shorter per occurrence. */
  lemma {:induction false} StripLength(s: string)
    ensures |Strip(s)| == |s| - |Scheme| * Occurrences(s)
  {
    if s == [] {
    } else if OccursAt(s, 0) {
      StripLength(s[|Scheme|..]);
      OccurrencesSkipScheme(s, |Scheme|);
    } else {
      StripLength(s[1..]);
    }
  }

  /** A value with no occurrence is returned unchanged. */
  lemma {:induction false} StripNoOccurrence(s: string)
    requires Occurrences(s) == 0
    ensures Strip(s) == s
  {
    if s != [] {
      StripNoOccurrence(s[1..]);
      assert [s[0]] + s[1..] == s;
    }
  }

  /** The value is left alone exactly when it holds no occurrence. */
  lemma StripIdentityIff(s: string)
    ensures Strip(s) == s <==> Occurrences(s) == 0
  {
  }

  /** A leading `Bearer ` is removed and the scan continues after it. */
  lemma StripSchemePrefix(t: string)
    ensures Strip(Scheme + t) == Strip(t)
  {
  }

  /** `Bearer ` followed by a token holding no occurrence yields that token. */
  lemma StripBearerToken(t: string)
    requires Occurrences(t) == 0
    ensures Strip(Scheme + t) == t
  {
  }

  /** Text before the first occurrence is kept as it is: the scan is left to right. */
  lemma {:induction false} StripSplit(u: string, t: string)
    requires forall i: nat :: i < |u| ==> !OccursAt(u + t, i)
    ensures Strip(u + t) == u + Strip(t)
  {
    if u == [] {
      assert u + t == t;
    } else {
      var s := u + t;
      assert !OccursAt(s, 0);
      assert s[1..] == u[1..] + t;
      forall i: nat | i < |u[1..]|
        ensures !OccursAt(u[1..] + t, i)
      {
        OccursAtTail(s, i);
      }
      StripSplit(u[1..], t);
      calc {
        Strip(s);
        [s[0]] + Strip(s[1..]);
        [u[0]] + (u[1..] + Strip(t));
        ([u[0]] + u[1..]) + Strip(t);
        { assert [u[0]] + u[1..] == u; }
        u + Strip(t);
      }
    }
  }

  /** Removal is case-sensitive: a lower-case `bearer ` scheme stays in the token. */
  lemma StripIsCaseSensitive(t: string)
    ensures Strip("bearer " + t) == "bearer " + Strip(t)
  {
    var u := "bearer ";
    forall i: nat | i < |u|
      ensures !OccursAt(u + t, i)
    {
      if i + |Scheme| <= |u + t| {
        assert (u + t)[i..i + |Scheme|][0] == u[i] != 'B';
      }
    }
    StripSplit(u, t);
  }

  lemma NoOccurrenceFree(s: string)
    requires |s| < |Scheme|
    ensures Occurrences(s) == 0
  {
  }

  /** Removal can join text into a new `Bearer `: the result may still contain one. */
  lemma StripJoinsText()
    ensures Strip("BearBearer er ") == Scheme
  {
    var u, t := "Bear", "Bearer er ";
    var s := u + t;
    assert s == "BearBearer er ";
    assert s[..|Scheme|] != Scheme by {
      assert s[..|Scheme|][4] == 'B';
    }
    forall i: nat | 0 < i < |u|
      ensures !OccursAt(s, i)
    {
      assert s[i] == u[i] != 'B';
    }
    StripSplit(u, t);
    assert t == Scheme + "er ";
    NoOccurrenceFree("er ");
    StripBearerToken("er ");
    assert u + "er " == Scheme;
  }

  /** Hence the replace is not idempotent: a second pass removes the joined occurrence. */
  lemma StripNotIdempotent()
    ensures Strip(Strip("BearBearer er ")) == ""
  {
    StripJoinsText();
    StripBearerToken("");
    assert Scheme + "" == Scheme;
  }
}
