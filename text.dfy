/** The `std::string` operations the compiler relies on: `starts_with`, `find`,
    `replace` of one span, and joining a list of parts with a separator. */
module Text {
  import opened Wrappers

  /** A `uint8_t`. */
  type Byte = x: int | 0 <= x < 256

  predicate StartsWith(s: string, prefix: string) {
    |prefix| <= |s| && s[..|prefix|] == prefix
  }

  /** `pat` occurs in `s` starting at index `k`. */
  predicate OccursAt(s: string, pat: string, k: nat) {
    k + |pat| <= |s| && s[k..k + |pat|] == pat
  }

  predicate Contains(s: string, pat: string) {
    exists k: nat :: k <= |s| && OccursAt(s, pat, k)
  }

  /** `p` is the first index at which `pat` occurs in `s`. */
  predicate FirstAt(s: string, pat: string, p: nat) {
    OccursAt(s, pat, p) && forall k: nat :: k < p ==> !OccursAt(s, pat, k)
  }

  /** The search `std::string::find(pat, i)` performs, from index `i` on. */
  function FindFrom(s: string, pat: string, i: nat): (r: Option<nat>)
    decreases |s| - i
    ensures r.Some? ==> i <= r.value && OccursAt(s, pat, r.value)
    ensures r.Some? ==> forall k: nat :: i <= k < r.value ==> !OccursAt(s, pat, k)
    ensures r.None? ==> forall k: nat :: i <= k ==> !OccursAt(s, pat, k)
  {
    if i + |pat| > |s| then None
    else if s[i..i + |pat|] == pat then Some(i)
    else FindFrom(s, pat, i + 1)
  }

  /** `std::string::find(pat)`: the first occurrence, or `None` for `npos`. */
  function IndexOf(s: string, pat: string): (r: Option<nat>)
    ensures r.None? <==> !Contains(s, pat)
    ensures r.Some? ==> FirstAt(s, pat, r.value)
    ensures forall p: nat :: FirstAt(s, pat, p) ==> r == Some(p)
  {
    FindFrom(s, pat, 0)
  }

  /** `s.replace(find(pat), |pat|, rep)` guarded by `find(pat) != npos`:
      the first occurrence of `pat` becomes `rep`; without one, `s` is unchanged. */
  function ReplaceFirst(s: string, pat: string, rep: string): (r: string)
    ensures !Contains(s, pat) ==> r == s
    ensures forall p: nat :: FirstAt(s, pat, p) ==> r == s[..p] + rep + s[p + |pat|..]
  {
    match IndexOf(s, pat)
    case None => s
    case Some(p) => s[..p] + rep + s[p + |pat|..]
  }

  /** `parts` joined by `sep`, the way the generated code and
      `OperatorExpression::ToString` separate their pieces. */
  function Join(parts: seq<string>, sep: string): string
    decreases |parts|
  {
    if |parts| == 0 then ""
    else if |parts| == 1 then parts[0]
    else parts[0] + sep + Join(parts[1..], sep)
  }

  lemma {:induction false} JoinAppend(a: seq<string>, b: seq<string>, sep: string)
    requires a != [] && b != []
    ensures Join(a + b, sep) == Join(a, sep) + sep + Join(b, sep)
    decreases |a|
  {
    if |a| == 1 {
      assert (a + b)[1..] == b;
    } else {
      assert (a + b)[1..] == a[1..] + b;
      JoinAppend(a[1..], b, sep);
    }
  }

  /** Regrouping a five-part concatenation. */
  lemma {:induction false} Regroup(x: string, y: string, z: string, u: string, v: string)
    ensures x + y + (z + u + v) == x + y + z + u + v
  {
  }

  lemma {:induction false} RegroupFour(w: string, x: string, y: string, z: string)
    ensures w + x + y + z == w + (x + y + z)
  {
  }

  /** No character of `s` from index `i` on is `c`. */
  predicate LacksFrom(s: string, c: char, i: nat) {
    forall k :: i <= k < |s| ==> s[k] != c
  }

  lemma {:induction false} LacksConcat(a: string, b: string, c: char, i: nat)
    requires i <= |a| && LacksFrom(a, c, i) && LacksFrom(b, c, 0)
    ensures LacksFrom(a + b, c, i)
  {
    forall k | i <= k < |a + b| ensures (a + b)[k] != c {
      if k >= |a| {
        assert (a + b)[k] == b[k - |a|];
      }
    }
  }

  /** The first character of `m` does not recur inside it. */
  predicate LoneFirst(m: string) {
    |m| > 0 && LacksFrom(m, m[0], 1)
  }

  /** A marker whose first character does not recur inside it cannot overlap
      itself, so after a prefix free of it the marker is found right where it begins. */
  lemma {:induction false} FirstOccurrenceAfter(x: string, m: string, y: string)
    requires LoneFirst(m)
    requires !Contains(x, m)
    ensures FirstAt(x + m + y, m, |x|)
    ensures IndexOf(x + m + y, m) == Some(|x|)
  {
    var s := x + m + y;
    assert s[|x|..|x| + |m|] == m;
    forall k: nat | k < |x| ensures !OccursAt(s, m, k) {
      if k + |m| <= |x| {
        assert s[k..k + |m|] == x[k..k + |m|];
        assert !OccursAt(x, m, k);
      } else if k + |m| <= |s| {
        var d := |x| - k;
        assert s[k..k + |m|][d] == m[0] != m[d];
      }
    }
  }

  /** After a prefix free of such a marker, `ReplaceFirst` replaces the marker where
      it begins and keeps the text on both sides of it. */
  lemma {:induction false} ReplaceMarker(x: string, m: string, y: string, rep: string)
    requires LoneFirst(m)
    requires !Contains(x, m)
    ensures ReplaceFirst(x + m + y, m, rep) == x + rep + y
  {
    FirstOccurrenceAfter(x, m, y);
    var s := x + m + y;
    assert s[..|x|] == x;
    assert s[|x| + |m|..] == y;
  }

  /** A string without the first character of `m` does not contain `m`. */
  lemma {:induction false} MissingFirstChar(s: string, m: string)
    requires |m| > 0 && LacksFrom(s, m[0], 0)
    ensures !Contains(s, m)
  {
    forall k: nat | k <= |s| ensures !OccursAt(s, m, k) {
      if k + |m| <= |s| {
        assert s[k..k + |m|][0] == s[k];
      }
    }
  }

  /** The first character of `m` occurs in `a + b` only at the start of `b`, followed
      by something other than the second character of `m`: no occurrence of `m`. */
  lemma {:induction false} MissingAfterLoneChar(a: string, b: string, m: string)
    requires |m| >= 2 && |b| >= 2
    requires LacksFrom(a, m[0], 0) && b[0] == m[0] && b[1] != m[1] && LacksFrom(b, m[0], 1)
    ensures !Contains(a + b, m)
  {
    var s := a + b;
    forall k: nat | k <= |s| ensures !OccursAt(s, m, k) {
      if k + |m| <= |s| {
        assert s[k..k + |m|][0] == s[k] && s[k..k + |m|][1] == s[k + 1];
        if k < |a| {
          assert s[k] == a[k];
        } else if k > |a| {
          assert s[k] == b[k - |a|];
        }
      }
    }
  }
}
