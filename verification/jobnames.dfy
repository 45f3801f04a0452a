/**
 * Job names: the raw "kind_host_scenario" string with every character outside
 * [A-Za-z0-9_] replaced by an underscore, so that it is a valid pipeline
 * identifier. The rewrite is not injective: names that differ only in
 * punctuation collide.
 */
module JobNames {

  /** The character class [A-Za-z0-9_]. */
  predicate IsWordChar(c: char) {
    || ('a' <= c <= 'z')
    || ('A' <= c <= 'Z')
    || ('0' <= c <= '9')
    || c == '_'
  }

  predicate AllWordChars(s: string) {
    forall i :: 0 <= i < |s| ==> IsWordChar(s[i])
  }

  /** Replaces each character outside [A-Za-z0-9_] by '_'. */
  function Sanitize(s: string): (r: string)
    ensures |r| == |s|
    ensures AllWordChars(r)
    ensures forall i :: 0 <= i < |s| && IsWordChar(s[i]) ==> r[i] == s[i]
    ensures forall i :: 0 <= i < |s| && !IsWordChar(s[i]) ==> r[i] == '_'
  {
    if |s| == 0 then []
    else [if IsWordChar(s[0]) then s[0] else '_'] + Sanitize(s[1..])
  }

  /** A string is left alone exactly when it already is an identifier. */
  lemma SanitizeFixedPoint(s: string)
    ensures Sanitize(s) == s <==> AllWordChars(s)
  {
    if AllWordChars(s) {
      assert forall i :: 0 <= i < |s| ==> Sanitize(s)[i] == s[i];
    }
  }

  lemma SanitizeIdempotent(s: string)
    ensures Sanitize(Sanitize(s)) == Sanitize(s)
  {
    SanitizeFixedPoint(Sanitize(s));
  }

  /** Sanitizing works character by character, so it distributes over concatenation. */
  lemma {:induction false} SanitizeAppend(a: string, b: string)
    ensures Sanitize(a + b) == Sanitize(a) + Sanitize(b)
    decreases |a|
  {
    if |a| == 0 {
      assert a + b == b;
    } else {
      assert (a + b)[1..] == a[1..] + b;
      SanitizeAppend(a[1..], b);
    }
  }

  /** Two inputs that differ only in punctuation get the same name. */
  lemma SanitizeCollides()
    ensures "material-ui" != "material.ui"
    ensures Sanitize("material-ui") == Sanitize("material.ui")
  {
    assert "material-ui"[8] != "material.ui"[8];
    var prefix, suffix := "material", "ui";
    assert "material-ui" == prefix + "-" + suffix;
    assert "material.ui" == prefix + "." + suffix;
    SanitizeAppend(prefix + "-", suffix);
    SanitizeAppend(prefix + ".", suffix);
    SanitizeAppend(prefix, "-");
    SanitizeAppend(prefix, ".");
    assert Sanitize("-") == "_" == Sanitize(".");
  }

  /**
   * Two names that differ at a shared position holding a letter, digit or `_`
   * on both sides still differ after sanitizing.
   */
  lemma SanitizeDiffersAt(a: string, b: string, i: int)
    requires 0 <= i < |a| && i < |b|
    requires IsWordChar(a[i]) && IsWordChar(b[i]) && a[i] != b[i]
    ensures Sanitize(a)[i] != Sanitize(b)[i]
    ensures Sanitize(a) != Sanitize(b)
  {
  }
}
