/** The substring facts that the link rewriting rests on: occurrence, and Go's left-to-right,
    non-overlapping replacement of every occurrence. */
module Strings {

  /** True when t (not empty) occurs somewhere in s. */
  predicate Occurs(s: string, t: string)
    requires t != ""
  {
    |t| <= |s| && (t <= s || Occurs(s[1..], t))
  }

  /** strings.ReplaceAll for a non-empty old text. What was just inserted is never scanned again. */
  function ReplaceAll(s: string, t: string, c: string): string
    requires t != ""
  {
    if |s| < |t| then s
    else if t <= s then c + ReplaceAll(s[|t|..], t, c)
    else [s[0]] + ReplaceAll(s[1..], t, c)
  }

  lemma {:induction false} OccursInSuffix(p: string, r: string, t: string)
    requires t != "" && Occurs(r, t)
    ensures Occurs(p + r, t)
  {
    if p == "" {
      assert p + r == r;
    } else {
      assert (p + r)[1..] == p[1..] + r;
      OccursInSuffix(p[1..], r, t);
    }
  }

  /** A place where t stands is an occurrence of t. */
  lemma OccursAt(s: string, i: nat, t: string)
    requires t != "" && i + |t| <= |s| && s[i..i + |t|] == t
    ensures Occurs(s, t)
  {
    assert s[i..][..|t|] == s[i..i + |t|];
    assert t <= s[i..];
    OccursInSuffix(s[..i], s[i..], t);
    assert s[..i] + s[i..] == s;
  }

  lemma {:induction false} ReplaceNothing(s: string, t: string, c: string)
    requires t != "" && !Occurs(s, t)
    ensures ReplaceAll(s, t, c) == s
  {
    if |s| < |t| {
    } else {
      ReplaceNothing(s[1..], t, c);
    }
  }

  lemma {:induction false} ReplaceBySame(s: string, t: string)
    requires t != ""
    ensures ReplaceAll(s, t, t) == s
  {
    if |s| < |t| {
    } else {
      if t <= s {
        ReplaceBySame(s[|t|..], t);
        assert s == t + s[|t|..];
      } else {
        ReplaceBySame(s[1..], t);
      }
    }
  }

  lemma {:induction false} ReplaceLength(s: string, t: string, c: string)
    requires t != ""
    ensures |c| <= |t| ==> |ReplaceAll(s, t, c)| <= |s|
    ensures |t| <= |c| ==> |s| <= |ReplaceAll(s, t, c)|
    ensures |c| < |t| && Occurs(s, t) ==> |ReplaceAll(s, t, c)| < |s|
    ensures |t| < |c| && Occurs(s, t) ==> |s| < |ReplaceAll(s, t, c)|
  {
    if |s| < |t| {
    } else {
      ReplaceLength(if t <= s then s[|t|..] else s[1..], t, c);
    }
  }

  lemma {:induction false} ReplaceSomething(s: string, t: string, c: string)
    requires t != "" && Occurs(s, t) && c != t
    ensures ReplaceAll(s, t, c) != s
  {
    ReplaceLength(s, t, c);
    if |c| == |t| {
      if t <= s {
        assert ReplaceAll(s, t, c)[..|t|] == c;
      } else {
        ReplaceSomething(s[1..], t, c);
        assert ReplaceAll(s, t, c)[1..] == ReplaceAll(s[1..], t, c);
      }
    }
  }

  predicate StandsAt(s: string, i: nat, t: string) {
    i + |t| <= |s| && s[i..i + |t|] == t
  }

  /** The first t, the one after a, is replaced, and then the rest is gone through in the same way. */
  lemma {:induction false} ReplaceFirstAndOn(a: string, t: string, b: string, c: string)
    requires t != "" && forall j: nat :: j < |a| ==> !StandsAt(a + t + b, j, t)
    ensures ReplaceAll(a + t + b, t, c) == a + c + ReplaceAll(b, t, c)
  {
    var s := a + t + b;
    if a == "" {
      assert t <= s && s[|t|..] == b;
    } else {
      var rest := a[1..] + t + b;
      assert s[1..] == rest && s == [a[0]] + rest;
      forall j: nat | j < |a[1..]| ensures !StandsAt(rest, j, t) {
        ShiftStands(s, j, t);
      }
      ReplaceFirstAndOn(a[1..], t, b, c);
      assert !StandsAt(s, 0, t);
      assert ReplaceAll(s, t, c) == [s[0]] + ReplaceAll(rest, t, c);
    }
  }

  lemma ShiftStands(s: string, j: nat, t: string)
    requires s != ""
    ensures StandsAt(s[1..], j, t) == StandsAt(s, j + 1, t)
  {
    if j + 1 + |t| <= |s| {
      assert s[1..][j..j + |t|] == s[j + 1..j + 1 + |t|];
    }
  }

  /** Replacing every t by c leaves a text alone exactly when there is nothing to replace, or
      nothing to replace it by. */
  lemma ReplaceAllFixed(s: string, t: string, c: string)
    requires t != ""
    ensures ReplaceAll(s, t, c) == s <==> !Occurs(s, t) || c == t
  {
    if !Occurs(s, t) {
      ReplaceNothing(s, t, c);
    } else if c == t {
      ReplaceBySame(s, t);
    } else {
      ReplaceSomething(s, t, c);
    }
  }
}
