/**
 * The two string helpers of the pystring library that the video list uses when it
 * builds a cover URL: `endswith` and `replace` (with its default count, that is,
 * every non-overlapping occurrence, scanned from the left).
 */
module PyString {

  /** pystring::endswith(s, suffix) with the default start and end. */
  predicate EndsWith(s: string, suffix: string) {
    |suffix| <= |s| && s[|s| - |suffix|..] == suffix
  }

  /** `s` ends with `suffix` exactly when it is some prefix of itself followed by `suffix`. */
  lemma EndsWithSplit(s: string, suffix: string)
    ensures EndsWith(s, suffix) <==> exists k | 0 <= k <= |s| :: s == s[..k] + suffix
  {
    if |suffix| <= |s| {
      assert s == s[..|s| - |suffix|] + s[|s| - |suffix|..];
    }
  }

  /** `pat` occurs in `s` starting at index `i`. */
  predicate OccursAt(s: string, pat: string, i: int) {
    0 <= i && i + |pat| <= |s| && s[i..i + |pat|] == pat
  }

  /** `pat` occurs somewhere in `s`. */
  predicate Occurs(s: string, pat: string) {
    exists i | 0 <= i <= |s| - |pat| :: OccursAt(s, pat, i)
  }

  /**
   * pystring::replace(s, pat, rep): each occurrence of `pat`, found left to right and
   * without overlap, is replaced by `rep` (its properties are the lemmas below).
   */
  function ReplaceAll(s: string, pat: string, rep: string): (r: string)
    requires |pat| > 0
    decreases |s|
  {
    if |s| < |pat| then s
    else if s[..|pat|] == pat then rep + ReplaceAll(s[|pat|..], pat, rep)
    else [s[0]] + ReplaceAll(s[1..], pat, rep)
  }

  /**
   * A replacement no shorter than the pattern never shortens the text, one no longer than
   * the pattern never lengthens it, and empty text stays empty.
   */
  lemma {:induction false} ReplaceAllLength(s: string, pat: string, rep: string)
    requires |pat| > 0
    ensures |rep| >= |pat| ==> |ReplaceAll(s, pat, rep)| >= |s|
    ensures |rep| <= |pat| ==> |ReplaceAll(s, pat, rep)| <= |s|
    ensures s == [] ==> ReplaceAll(s, pat, rep) == []
    decreases |s|
  {
    if |s| < |pat| {
    } else if s[..|pat|] == pat {
      ReplaceAllLength(s[|pat|..], pat, rep);
    } else {
      ReplaceAllLength(s[1..], pat, rep);
    }
  }

  /** Text in which `pat` does not occur comes back unchanged. */
  lemma {:induction false} ReplaceAllUnchanged(s: string, pat: string, rep: string)
    requires |pat| > 0
    ensures !Occurs(s, pat) ==> ReplaceAll(s, pat, rep) == s
    decreases |s|
  {
    if |s| < |pat| {
    } else if s[..|pat|] == pat {
      assert OccursAt(s, pat, 0);
    } else {
      forall i | 0 <= i <= |s[1..]| - |pat| && OccursAt(s[1..], pat, i) ensures OccursAt(s, pat, i + 1) {
        assert s[i + 1..i + 1 + |pat|] == s[1..][i..i + |pat|];
      }
      ReplaceAllUnchanged(s[1..], pat, rep);
    }
  }

  /**
   * When the first character of `pat` does not occur again inside `pat`, no occurrence can
   * straddle the start of a trailing `pat`: replacing in `x + pat` is replacing in `x`,
   * followed by `rep`.
   */
  lemma {:induction false} ReplaceAllTrailing(x: string, pat: string, rep: string)
    requires |pat| > 0
    requires forall k :: 0 < k < |pat| ==> pat[k] != pat[0]
    ensures ReplaceAll(x + pat, pat, rep) == ReplaceAll(x, pat, rep) + rep
    decreases |x|
  {
    var s := x + pat;
    if |x| < |pat| {
      ReplaceAllShortTrailing(x, pat, rep);
    } else {
      assert s[..|pat|] == x[..|pat|];
      if x[..|pat|] == pat {
        assert s[|pat|..] == x[|pat|..] + pat;
        assert ReplaceAll(s, pat, rep) == rep + ReplaceAll(x[|pat|..] + pat, pat, rep);
        assert ReplaceAll(x, pat, rep) == rep + ReplaceAll(x[|pat|..], pat, rep);
        ReplaceAllTrailing(x[|pat|..], pat, rep);
      } else {
        assert s[0] == x[0] && s[1..] == x[1..] + pat;
        assert ReplaceAll(s, pat, rep) == [x[0]] + ReplaceAll(x[1..] + pat, pat, rep);
        assert ReplaceAll(x, pat, rep) == [x[0]] + ReplaceAll(x[1..], pat, rep);
        ReplaceAllTrailing(x[1..], pat, rep);
      }
    }
  }

  /** The case of `ReplaceAllTrailing` where `x` is shorter than `pat` and so is copied as it is. */
  lemma {:induction false} ReplaceAllShortTrailing(x: string, pat: string, rep: string)
    requires |x| < |pat|
    requires forall k :: 0 < k < |pat| ==> pat[k] != pat[0]
    ensures ReplaceAll(x + pat, pat, rep) == x + rep
    decreases |x|
  {
    var s := x + pat;
    if x == [] {
      assert s == pat && s[..|pat|] == pat && s[|pat|..] == [];
      assert ReplaceAll(s, pat, rep) == rep + ReplaceAll([], pat, rep);
    } else {
      assert s[..|pat|] != pat by {
        assert s[..|pat|][|x|] == pat[0];
        assert pat[|x|] != pat[0];
      }
      assert s[0] == x[0] && s[1..] == x[1..] + pat;
      assert ReplaceAll(s, pat, rep) == [x[0]] + ReplaceAll(x[1..] + pat, pat, rep);
      ReplaceAllShortTrailing(x[1..], pat, rep);
      assert [x[0]] + (x[1..] + rep) == x + rep;
    }
  }

  /**
   * Replacing in a text whose first occurrence of `pat` starts right after `a`: `a` is
   * copied, that occurrence becomes `rep`, and the rest is replaced in turn.
   */
  lemma {:induction false} ReplaceAllFirst(a: string, b: string, pat: string, rep: string)
    requires |pat| > 0
    requires forall i | 0 <= i < |a| :: !OccursAt(a + pat + b, pat, i)
    ensures ReplaceAll(a + pat + b, pat, rep) == a + rep + ReplaceAll(b, pat, rep)
    decreases |a|
  {
    var s := a + pat + b;
    if a == [] {
      assert s == pat + b && s[..|pat|] == pat && s[|pat|..] == b;
    } else {
      assert !OccursAt(s, pat, 0);
      assert s[0] == a[0] && s[1..] == a[1..] + pat + b;
      forall i | 0 <= i < |a[1..]| ensures !OccursAt(a[1..] + pat + b, pat, i) {
        assert !OccursAt(s, pat, i + 1);
        assert s[i + 1..i + 1 + |pat|] == (a[1..] + pat + b)[i..i + |pat|];
      }
      ReplaceAllFirst(a[1..], b, pat, rep);
      assert [a[0]] + (a[1..] + rep + ReplaceAll(b, pat, rep)) == a + rep + ReplaceAll(b, pat, rep);
    }
  }

  /** The pattern and replacement the cover URL rule uses. */
  const Webp := ".webp"
  const Jpg := ".jpg"

  /**
   * A prefix without '.' of a replaced text is a prefix of the original text:
   * each replacement starts with '.', every other character is copied.
   */
  lemma {:induction false} DotFreePrefixOfReplaced(u: string, w: string)
    ensures '.' !in w && |w| <= |ReplaceAll(u, Webp, Jpg)| && ReplaceAll(u, Webp, Jpg)[..|w|] == w
            ==> |w| <= |u| && u[..|w|] == w
    decreases |u|
  {
    var r := ReplaceAll(u, Webp, Jpg);
    if w == [] {
    } else if |u| < |Webp| {
      assert r == u;
    } else if u[..|Webp|] == Webp {
      if |w| <= |r| && r[..|w|] == w {
        assert w[0] == r[0] == '.';
      }
    } else {
      var t := ReplaceAll(u[1..], Webp, Jpg);
      assert r == [u[0]] + t;
      if '.' !in w && |w| <= |r| && r[..|w|] == w {
        assert t[..|w| - 1] == w[1..];
        DotFreePrefixOfReplaced(u[1..], w[1..]);
        assert u[..|w|] == [u[0]] + u[1..][..|w| - 1];
      }
    }
  }

  /** Text ending in `suffix` still does after something is put in front of it. */
  lemma EndsWithAppend(p: string, e: string, suffix: string)
    ensures EndsWith(e, suffix) ==> EndsWith(p + e, suffix)
  {
    if |suffix| <= |e| {
      assert (p + e)[|p + e| - |suffix|..] == e[|e| - |suffix|..];
    }
  }

  /**
   * What replacing ".webp" by ".jpg" does to a thumbnail suffix: no ".webp" is left, a
   * suffix without one is unchanged, and a trailing ".webp" becomes a trailing ".jpg"
   * after the rest, which is kept when it has no ".webp" of its own.
   */
  lemma WebpSuffixToJpg(h: string)
    ensures !Occurs(ReplaceAll(h, Webp, Jpg), Webp)
    ensures !Occurs(h, Webp) ==> ReplaceAll(h, Webp, Jpg) == h
    ensures EndsWith(h, Webp) ==> EndsWith(ReplaceAll(h, Webp, Jpg), Jpg)
    ensures EndsWith(h, Webp) && !Occurs(h[..|h| - |Webp|], Webp)
            ==> ReplaceAll(h, Webp, Jpg) == h[..|h| - |Webp|] + Jpg
  {
    NoWebpAfterReplace(h);
    ReplaceAllUnchanged(h, Webp, Jpg);
    TrailingWebpToJpg(h);
  }

  /** A suffix ending in ".webp" is replaced into something ending in ".jpg". */
  lemma TrailingWebpToJpg(h: string)
    ensures EndsWith(h, Webp) ==> EndsWith(ReplaceAll(h, Webp, Jpg), Jpg)
    ensures EndsWith(h, Webp) && !Occurs(h[..|h| - |Webp|], Webp)
            ==> ReplaceAll(h, Webp, Jpg) == h[..|h| - |Webp|] + Jpg
  {
    if EndsWith(h, Webp) {
      var stem := h[..|h| - |Webp|];
      assert h == stem + Webp;
      StemWebpToJpg(stem);
    }
  }

  /** `stem + ".webp"` is replaced into the replaced stem followed by ".jpg". */
  lemma StemWebpToJpg(stem: string)
    ensures EndsWith(ReplaceAll(stem + Webp, Webp, Jpg), Jpg)
    ensures !Occurs(stem, Webp) ==> ReplaceAll(stem + Webp, Webp, Jpg) == stem + Jpg
  {
    ReplaceAllTrailing(stem, Webp, Jpg);
    ReplaceAllUnchanged(stem, Webp, Jpg);
    EndsWithAppend(ReplaceAll(stem, Webp, Jpg), Jpg, Jpg);
    assert EndsWith(Jpg, Jpg);
  }

  /**
   * Replacing ".webp" by ".jpg" in a suffix whose first ".webp" starts at `k`: the text before
   * it is kept, it becomes ".jpg", and the rest is replaced in turn.
   */
  lemma FirstWebpToJpg(h: string)
    ensures forall k | 0 <= k && OccursAt(h, Webp, k) && (forall i | 0 <= i < k :: !OccursAt(h, Webp, i)) ::
              ReplaceAll(h, Webp, Jpg) == h[..k] + Jpg + ReplaceAll(h[k + |Webp|..], Webp, Jpg)
  {
    forall k | 0 <= k && OccursAt(h, Webp, k) && (forall i | 0 <= i < k :: !OccursAt(h, Webp, i))
      ensures ReplaceAll(h, Webp, Jpg) == h[..k] + Jpg + ReplaceAll(h[k + |Webp|..], Webp, Jpg)
    {
      assert h == h[..k] + Webp + h[k + |Webp|..];
      ReplaceAllFirst(h[..k], h[k + |Webp|..], Webp, Jpg);
    }
  }

  /** After every ".webp" has been replaced by ".jpg", no ".webp" is left. */
  lemma {:induction false} NoWebpAfterReplace(s: string)
    ensures !Occurs(ReplaceAll(s, Webp, Jpg), Webp)
    decreases |s|
  {
    if |s| < |Webp| {
      assert ReplaceAll(s, Webp, Jpg) == s;
    } else if s[..|Webp|] == Webp {
      NoWebpAfterReplace(s[|Webp|..]);
      NoWebpAfterLeadingJpg(ReplaceAll(s[|Webp|..], Webp, Jpg));
    } else {
      NoWebpAfterReplace(s[1..]);
      DotFreePrefixOfReplaced(s[1..], "webp");
      NoWebpAfterCopiedChar(s, ReplaceAll(s[1..], Webp, Jpg));
    }
  }

  /** Putting ".jpg" in front of a text without ".webp" creates no ".webp". */
  lemma NoWebpAfterLeadingJpg(t: string)
    requires !Occurs(t, Webp)
    ensures !Occurs(Jpg + t, Webp)
  {
    var r := Jpg + t;
    assert r[|Jpg|..] == t;
    forall i | 0 <= i <= |r| - |Webp| ensures !OccursAt(r, Webp, i) {
      if i == 0 {
        assert r[i..i + 5][1] == 'j';
      } else if i < |Jpg| {
        assert r[i..i + 5][0] != '.';
      } else {
        assert r[i..i + 5] == r[|Jpg|..][i - |Jpg|..i - |Jpg| + 5];
        assert !OccursAt(t, Webp, i - |Jpg|);
      }
    }
  }

  /**
   * Copying the first character of `s` in front of `t`, the replaced rest of `s`, creates no
   * ".webp" when `s` does not start with one and "webp" cannot start `t` without starting the
   * rest of `s`.
   */
  lemma NoWebpAfterCopiedChar(s: string, t: string)
    requires |s| >= |Webp| && s[..|Webp|] != Webp
    requires !Occurs(t, Webp)
    requires |"webp"| <= |t| && t[..|"webp"|] == "webp" ==> |"webp"| <= |s[1..]| && s[1..][..|"webp"|] == "webp"
    requires t == ReplaceAll(s[1..], Webp, Jpg)
    ensures !Occurs(ReplaceAll(s, Webp, Jpg), Webp)
  {
    assert ReplaceAll(s, Webp, Jpg) == [s[0]] + t;
    NoWebpAfterChar(s[0], t);
  }

  /** A character put in front of a text without ".webp" creates none unless it starts one. */
  lemma NoWebpAfterChar(c: char, t: string)
    requires !Occurs(t, Webp)
    requires !(c == '.' && |t| >= 4 && t[..4] == "webp")
    ensures !Occurs([c] + t, Webp)
  {
    var r := [c] + t;
    assert r[1..] == t;
    forall i | 0 <= i <= |r| - |Webp| ensures !OccursAt(r, Webp, i) {
      if i == 0 {
        assert r[..5] == [c] + t[..4];
        if c != '.' {
          assert r[..5][0] != Webp[0];
        } else {
          assert r[..5][1..] == t[..4] != "webp" == Webp[1..];
        }
      } else {
        assert r[i..i + 5] == r[1..][i - 1..i - 1 + 5];
        assert !OccursAt(t, Webp, i - 1);
      }
    }
  }
}
