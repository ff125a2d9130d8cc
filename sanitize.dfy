/** The filename sanitiser: remove every character that is illegal in a file
    name, trim, and fall back to a fixed name when nothing is left. */
module Sanitizer {
  import opened Text

  const Fallback: string := "youtube-download"

  /** The characters the sanitiser's pattern matches: < > : " / \ | ? * and the
      control characters U+0000 to U+001F. */
  predicate IsIllegal(c: char) {
    c in "<>:\"/\\|?*" || c <= '\U{1F}'
  }

  predicate Clean(s: string) {
    forall i :: 0 <= i < |s| ==> !IsIllegal(s[i])
  }

  lemma FallbackIsClean()
    ensures Clean(Fallback) && IsTrimmed(Fallback)
  {
    forall i | 0 <= i < |Fallback| ensures !IsIllegal(Fallback[i]) {
      assert Fallback[i] in "youtbe-dwnla";
    }
  }

  /** The global regular-expression replace with the empty string: the illegal
      characters go, every other character stays, in order and as often as it
      occurred. */
  function StripIllegal(s: string): (r: string)
    ensures Clean(r)
    ensures IsSubsequence(r, s)
    ensures forall c :: !IsIllegal(c) ==> multiset(r)[c] == multiset(s)[c]
  {
    if s == [] then []
    else
      var rest := StripIllegal(s[1..]);
      assert s == [s[0]] + s[1..];
      if IsIllegal(s[0]) then rest
      else
        assert ([s[0]] + rest)[1..] == rest;
        [s[0]] + rest
  }

  lemma {:induction false} StripClean(s: string)
    requires Clean(s)
    ensures StripIllegal(s) == s
  {
    if s != [] {
      StripClean(s[1..]);
      assert [s[0]] + s[1..] == s;
    }
  }

  /** The sanitised name: never empty, free of illegal characters, and without
      leading or trailing whitespace. */
  function Sanitize(title: string): (r: string)
    ensures r != []
    ensures Clean(r)
    ensures IsTrimmed(r)
  {
    var stripped := StripIllegal(title);
    var t := Trim(stripped);
    assert Clean(t) by {
      var lo := LeadingSpaces(stripped);
      forall i | 0 <= i < |t| ensures !IsIllegal(t[i]) {
        assert t[i] == stripped[lo + i];
      }
    }
    FallbackIsClean();
    if t == [] then Fallback else t
  }

  /** A name with no illegal character and something left after trimming is
      only trimmed. */
  lemma CleanNameIsTrimmed(s: string)
    requires Clean(s) && Trim(s) != []
    ensures Sanitize(s) == Trim(s)
  {
    StripClean(s);
  }

  /** A name made only of illegal characters and whitespace yields the fallback. */
  lemma IllegalOrSpaceGivesFallback(s: string)
    requires forall i :: 0 <= i < |s| ==> IsIllegal(s[i]) || IsSpace(s[i])
    ensures Sanitize(s) == Fallback
  {
    var stripped := StripIllegal(s);
    forall k | 0 <= k < |stripped| ensures IsSpace(stripped[k]) {
      SubsequenceElements(stripped, s, k);
    }
    TrimOfAllSpace(stripped);
  }

  /** Sanitising twice changes nothing. */
  lemma SanitizeIdempotent(s: string)
    ensures Sanitize(Sanitize(s)) == Sanitize(s)
  {
    var r := Sanitize(s);
    StripClean(r);
    TrimOfTrimmed(r);
  }

  /** Unless the fallback is returned, the result keeps characters of the input
      in their original order. */
  lemma SanitizeIsSubsequence(s: string)
    ensures Sanitize(s) == Fallback || IsSubsequence(Sanitize(s), s)
  {
    var stripped := StripIllegal(s);
    var t := Trim(stripped);
    if t != [] {
      var lo := LeadingSpaces(stripped);
      SliceIsSubsequence(stripped, lo, lo + |t|);
      SubsequenceTrans(t, stripped, s);
    }
  }
}
