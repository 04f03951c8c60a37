/** Knowledge-base name sanitisation: `re.sub(r'[^a-zA-Z0-9_-]', '_', name).lower()`.
    The two passes of the source are kept apart: `ReplaceDisallowed` is the substitution and
    `LowerAll` the lower-casing, which only ever sees characters the substitution let through. */
module Sanitize {
  import opened Prelude

  /** The characters the class `[a-zA-Z0-9_-]` matches. */
  predicate IsAllowed(c: char) {
    IsAsciiLetter(c) || IsDigit(c) || c == '_' || c == '-'
  }

  /** The characters a sanitised name is made of: `[a-z0-9_-]`. */
  predicate IsSafe(c: char) {
    IsAsciiLower(c) || IsDigit(c) || c == '_' || c == '-'
  }

  predicate AllSafe(s: string) {
    forall i :: 0 <= i < |s| ==> IsSafe(s[i])
  }

  predicate AllAllowed(s: string) {
    forall i :: 0 <= i < |s| ==> IsAllowed(s[i])
  }

  /** The substitution pass: each character outside the class becomes one `_`. */
  function ReplaceDisallowed(s: string): (r: string)
    ensures |r| == |s|
    ensures forall i :: 0 <= i < |s| && IsAllowed(s[i]) ==> r[i] == s[i]
    ensures forall i :: 0 <= i < |s| && !IsAllowed(s[i]) ==> r[i] == '_'
    ensures AllAllowed(r)
  {
    if s == [] then []
    else [if IsAllowed(s[0]) then s[0] else '_'] + ReplaceDisallowed(s[1..])
  }

  /** The lower-casing pass. On allowed characters Python's Unicode `lower()` is ASCII
      lower-casing, which is why `ToLower` suffices here. */
  function LowerAll(s: string): (r: string)
    ensures |r| == |s|
    ensures forall i :: 0 <= i < |s| ==> r[i] == ToLower(s[i])
  {
    if s == [] then [] else [ToLower(s[0])] + LowerAll(s[1..])
  }

  /** `sanitize_filename`. Total; the result has the input's length and is drawn from `[a-z0-9_-]`. */
  function SanitizeFilename(name: string): (r: string)
    ensures |r| == |name|
    ensures AllSafe(r)
  {
    LowerAll(ReplaceDisallowed(name))
  }

  /** An allowed character stays in place, lower-cased; any other character becomes exactly one `_`. */
  lemma SanitizePointwise(name: string, i: int)
    requires 0 <= i < |name|
    ensures IsAllowed(name[i]) ==> SanitizeFilename(name)[i] == ToLower(name[i])
    ensures !IsAllowed(name[i]) ==> SanitizeFilename(name)[i] == '_'
  {
    assert SanitizeFilename(name)[i] == ToLower(ReplaceDisallowed(name)[i]);
  }

  /** A name is left unchanged exactly when it is already made of `[a-z0-9_-]`. */
  lemma SanitizeFixedPoints(name: string)
    ensures SanitizeFilename(name) == name <==> AllSafe(name)
  {
    if AllSafe(name) {
      forall i | 0 <= i < |name|
        ensures SanitizeFilename(name)[i] == name[i]
      {
        SanitizePointwise(name, i);
      }
    }
  }

  /** Sanitising twice is sanitising once. */
  lemma SanitizeIdempotent(name: string)
    ensures SanitizeFilename(SanitizeFilename(name)) == SanitizeFilename(name)
  {
    SanitizeFixedPoints(SanitizeFilename(name));
  }

  /** A sanitised name never contains `/`, so it is a single path component. */
  lemma SanitizeHasNoSlash(name: string)
    ensures '/' !in SanitizeFilename(name)
  {
  }

  /** Sanitisation is not injective: a space and an upper-case letter are folded away, so
      two distinct knowledge-base names can share one storage location. */
  lemma SanitizeMerges()
    ensures SanitizeFilename("My KB") == SanitizeFilename("my_kb") == "my_kb"
  {
    assert ReplaceDisallowed("My KB") == "My_KB";
    assert ReplaceDisallowed("my_kb") == "my_kb";
  }
}
