/** Python's ordering of `str` values: code point by code point, a proper
    prefix before any of its extensions. `sorted(..., reverse=True)[0]` picks
    the greatest name under this order. */
module LexOrder {

  /** `s < t` on Python strings. A proper prefix comes first, and no string
      precedes itself. */
  predicate Less(s: string, t: string)
    ensures |s| < |t| && s == t[..|s|] ==> Less(s, t)
    ensures Less(s, t) ==> s != t
    decreases |s|
  {
    if |s| == 0 then |t| > 0
    else if |t| == 0 then false
    else if s[0] != t[0] then s[0] < t[0]
    else Less(s[1..], t[1..])
  }

  predicate LessOrEqual(s: string, t: string) {
    s == t || Less(s, t)
  }

  lemma {:induction false} Irreflexive(s: string)
    ensures !Less(s, s)
    decreases |s|
  {
    if |s| > 0 {
      Irreflexive(s[1..]);
    }
  }

  lemma {:induction false} Asymmetric(s: string, t: string)
    ensures !(Less(s, t) && Less(t, s))
    decreases |s|
  {
    if |s| > 0 && |t| > 0 && s[0] == t[0] {
      Asymmetric(s[1..], t[1..]);
    }
  }

  lemma {:induction false} Transitive(s: string, t: string, u: string)
    requires Less(s, t) && Less(t, u)
    ensures Less(s, u)
    decreases |s|
  {
    if |s| > 0 && s[0] == t[0] && t[0] == u[0] {
      Transitive(s[1..], t[1..], u[1..]);
    }
  }

  /** Any two distinct strings are ordered one way or the other. */
  lemma {:induction false} Total(s: string, t: string)
    ensures s == t || Less(s, t) || Less(t, s)
    decreases |s|
  {
    if |s| > 0 && |t| > 0 && s[0] == t[0] {
      Total(s[1..], t[1..]);
      if s[1..] == t[1..] {
        assert s == [s[0]] + s[1..] && t == [t[0]] + t[1..];
      }
    }
  }

  /** Comparing two concatenations whose first parts have the same length
      compares the first parts, and the second parts only on a tie. */
  lemma {:induction false} LessOfConcat(p: string, s: string, q: string, t: string)
    requires |p| == |q|
    ensures Less(p + s, q + t) <==> Less(p, q) || (p == q && Less(s, t))
    decreases |p|
  {
    if |p| == 0 {
      assert p + s == s && q + t == t;
    } else {
      assert (p + s)[0] == p[0] && (q + t)[0] == q[0];
      assert (p + s)[1..] == p[1..] + s && (q + t)[1..] == q[1..] + t;
      LessOfConcat(p[1..], s, q[1..], t);
      if p[0] == q[0] && p[1..] == q[1..] {
        assert p == [p[0]] + p[1..] && q == [q[0]] + q[1..];
      }
      if p == q {
        assert p[1..] == q[1..];
      }
    }
  }

  /** A nonempty finite set of names has a greatest element. */
  lemma {:induction false} GreatestExists(names: set<string>)
    requires names != {}
    ensures exists g :: g in names && forall n :: n in names ==> LessOrEqual(n, g)
    decreases |names|
  {
    var x :| x in names;
    if names == {x} {
      assert forall n :: n in names ==> n == x;
    } else {
      var rest := names - {x};
      GreatestExists(rest);
      var g :| g in rest && forall n :: n in rest ==> LessOrEqual(n, g);
      Total(x, g);
      if Less(g, x) {
        forall n | n in names ensures LessOrEqual(n, x) {
          if n != x && n != g {
            assert LessOrEqual(n, g);
            Transitive(n, g, x);
          }
        }
      } else {
        assert forall n :: n in names ==> LessOrEqual(n, g);
      }
    }
  }

  /** The greatest element of a set is unique. */
  lemma GreatestUnique(names: set<string>, g: string, h: string)
    requires g in names && forall n :: n in names ==> LessOrEqual(n, g)
    requires h in names && forall n :: n in names ==> LessOrEqual(n, h)
    ensures g == h
  {
    assert LessOrEqual(h, g) && LessOrEqual(g, h);
    Asymmetric(g, h);
  }

  /** The name `sorted(names, reverse=True)[0]` yields: the greatest one. */
  ghost function Greatest(names: set<string>): (g: string)
    requires names != {}
    ensures g in names
    ensures forall n :: n in names ==> LessOrEqual(n, g)
  {
    GreatestExists(names);
    var g :| g in names && forall n :: n in names ==> LessOrEqual(n, g);
    g
  }
}
