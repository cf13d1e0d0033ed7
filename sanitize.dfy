/** The identifier sanitiser: turns a free-form guide identifier into a string
    that can serve as a file name (clean_guide_id in get_json.py). */
module Sanitize {
  import opened Tables

  /** The characters matched by the regular-expression class [<>:"/\\|?*]. */
  predicate IsForbidden(c: char)
    ensures IsForbidden(c) <==> c in "<>:\"/\\|?*"
    ensures IsForbidden(c) ==> c != '_' && !IsTrimmed(c)
  {
    c == '<' || c == '>' || c == ':' || c == '"' || c == '/' || c == '\\' || c == '|' || c == '?' || c == '*'
  }

  /** The characters removed from both ends by strip('. '). */
  predicate IsTrimmed(c: char) {
    c == '.' || c == ' '
  }

  predicate NoForbidden(s: string) {
    forall k :: 0 <= k < |s| ==> !IsForbidden(s[k])
  }

  /** Neither the first nor the last character is a dot or a space. */
  predicate CleanEnds(s: string) {
    s == [] || (!IsTrimmed(s[0]) && !IsTrimmed(s[|s| - 1]))
  }

  /** str.replace(a, b) with single-character arguments. */
  function ReplaceChar(s: string, a: char, b: char): (r: string)
    ensures |r| == |s|
    ensures forall k :: 0 <= k < |s| ==> r[k] == (if s[k] == a then b else s[k])
  {
    if s == [] then [] else [if s[0] == a then b else s[0]] + ReplaceChar(s[1..], a, b)
  }

  /** re.sub(r'[<>:"/\\|?*]', '_', s): every forbidden character becomes '_'. */
  function SubForbidden(s: string): (r: string)
    ensures |r| == |s|
    ensures forall k :: 0 <= k < |s| ==> r[k] == (if IsForbidden(s[k]) then '_' else s[k])
    ensures NoForbidden(r)
  {
    if s == [] then [] else [if IsForbidden(s[0]) then '_' else s[0]] + SubForbidden(s[1..])
  }

  /** The position of the first character at or after i that is not a dot
      or a space (|s| when there is none). */
  function KeptFrom(s: string, i: nat): (r: nat)
    requires i <= |s|
    ensures i <= r <= |s|
    ensures forall k :: i <= k < r ==> IsTrimmed(s[k])
    ensures r < |s| ==> !IsTrimmed(s[r])
    decreases |s| - i
  {
    if i < |s| && IsTrimmed(s[i]) then KeptFrom(s, i + 1) else i
  }

  /** The end of the kept part: the position just after the last character
      before j, and at or after lo, that is not a dot or a space (lo when
      there is none). */
  function KeptUntil(s: string, lo: nat, j: nat): (r: nat)
    requires lo <= j <= |s|
    ensures lo <= r <= j
    ensures forall k :: r <= k < j ==> IsTrimmed(s[k])
    ensures r > lo ==> !IsTrimmed(s[r - 1])
    decreases j
  {
    if j > lo && IsTrimmed(s[j - 1]) then KeptUntil(s, lo, j - 1) else j
  }

  /** r is the slice s[i..i+|r|], everything of s outside that slice is a dot
      or a space, and r itself has clean ends: the meaning of s.strip('. '). */
  ghost predicate StrippedAt(s: string, r: string, i: int) {
    && 0 <= i && i + |r| <= |s|
    && r == s[i..i + |r|]
    && (forall k :: 0 <= k < i ==> IsTrimmed(s[k]))
    && (forall k :: i + |r| <= k < |s| ==> IsTrimmed(s[k]))
    && CleanEnds(r)
  }

  /** str.strip('. '): the part of s between the leading and the trailing
      dots and spaces. */
  function Strip(s: string): (r: string)
    ensures CleanEnds(r)
    ensures StrippedAt(s, r, KeptFrom(s, 0))
  {
    var lo := KeptFrom(s, 0);
    var hi := KeptUntil(s, lo, |s|);
    SliceStripped(s, lo, hi);
    s[lo..hi]
  }

  /** The slice between a first and a last kept character is stripped. */
  lemma SliceStripped(s: string, lo: nat, hi: nat)
    requires lo <= hi <= |s|
    requires forall k :: 0 <= k < lo ==> IsTrimmed(s[k])
    requires forall k :: hi <= k < |s| ==> IsTrimmed(s[k])
    requires lo < |s| ==> !IsTrimmed(s[lo])
    requires hi > lo ==> !IsTrimmed(s[hi - 1])
    ensures StrippedAt(s, s[lo..hi], lo)
  {
    var r := s[lo..hi];
    if r != [] {
      assert r[0] == s[lo] && r[|r| - 1] == s[hi - 1];
    }
  }

  /** A non-empty stripped slice starts with a kept character. */
  lemma StrippedFirstKept(s: string, r: string, i: int)
    requires StrippedAt(s, r, i)
    ensures r != [] ==> i < |s| && s[i] == r[0] && !IsTrimmed(s[i])
  {
    if r != [] {
      assert s[i] == s[i..i + |r|][0];
    }
  }

  /** When the stripped slice is empty, every character was a dot or a space. */
  lemma StrippedEmptyAllTrimmed(s: string, r: string, i: int)
    requires StrippedAt(s, r, i)
    ensures r == [] ==> forall k :: 0 <= k < |s| ==> IsTrimmed(s[k])
  {
  }

  /** There is only one way to strip a string: two stripped slices agree. */
  lemma StrippedUnique(s: string, r1: string, i1: int, r2: string, i2: int)
    requires StrippedAt(s, r1, i1) && StrippedAt(s, r2, i2)
    ensures r1 == r2
  {
    StrippedFirstKept(s, r1, i1);
    StrippedFirstKept(s, r2, i2);
    StrippedEmptyAllTrimmed(s, r1, i1);
    StrippedEmptyAllTrimmed(s, r2, i2);
    if r1 != [] && r2 != [] {
      assert i1 == i2;
      assert s[i1 + |r1| - 1] == r1[|r1| - 1] && s[i2 + |r2| - 1] == r2[|r2| - 1];
      assert |r1| == |r2|;
    }
  }

  /** A string with clean ends is its own strip. */
  lemma StripCleanIsIdentity(s: string)
    requires CleanEnds(s)
    ensures Strip(s) == s
  {
    assert StrippedAt(s, s, 0);
    StrippedUnique(s, s, 0, Strip(s), KeptFrom(s, 0));
  }

  /** Every slice of a string without forbidden characters is without them. */
  lemma SliceNoForbidden(s: string, i: int, j: int)
    requires 0 <= i <= j <= |s| && NoForbidden(s)
    ensures NoForbidden(s[i..j])
  {
    forall k | 0 <= k < j - i ensures !IsForbidden(s[i..j][k]) {
      assert s[i..j][k] == s[i + k];
    }
  }

  /** Stripping keeps a string free of forbidden characters. */
  lemma StripKeepsNoForbidden(m: string)
    requires NoForbidden(m)
    ensures NoForbidden(Strip(m)) && StrippedAt(m, Strip(m), KeptFrom(m, 0))
  {
    var i := KeptFrom(m, 0);
    SliceNoForbidden(m, i, i + |Strip(m)|);
  }

  /** Replacing ':' and '|' before the regular expression changes nothing:
      the regular expression maps both to '_' anyway. */
  lemma PreReplaceRedundant(s: string)
    ensures SubForbidden(ReplaceChar(ReplaceChar(s, ':', '_'), '|', '_')) == SubForbidden(s)
  {
    var t := ReplaceChar(ReplaceChar(s, ':', '_'), '|', '_');
    assert forall k :: 0 <= k < |s| ==> SubForbidden(t)[k] == SubForbidden(s)[k];
  }

  /** clean_guide_id on a present value: replace ':' and '|', substitute the
      forbidden class, strip dots and spaces at both ends. */
  function CleanString(s: string): (r: string)
    ensures NoForbidden(r) && CleanEnds(r)
    ensures exists i :: StrippedAt(SubForbidden(s), r, i)
    ensures |r| <= |s|
  {
    PreReplaceRedundant(s);
    StripKeepsNoForbidden(SubForbidden(s));
    Strip(SubForbidden(ReplaceChar(ReplaceChar(s, ':', '_'), '|', '_')))
  }

  /** clean_guide_id: a missing value (pandas NA) becomes the empty string. */
  function CleanGuideId(id: Option<string>): (r: string)
    ensures NoForbidden(r) && CleanEnds(r)
    ensures id.None? ==> r == []
    ensures id.Some? ==> exists i :: StrippedAt(SubForbidden(id.value), r, i)
  {
    match id
    case None => ""
    case Some(s) => CleanString(s)
  }

  /** A string without forbidden characters passes the substitution unchanged. */
  lemma {:induction false} SubForbiddenIdentity(s: string)
    requires NoForbidden(s)
    ensures SubForbidden(s) == s
  {
    if s != [] {
      SubForbiddenIdentity(s[1..]);
    }
  }

  /** Cleaning an identifier that is already clean returns it unchanged. */
  lemma CleanIdempotent(id: Option<string>)
    ensures CleanGuideId(Some(CleanGuideId(id))) == CleanGuideId(id)
  {
    var t := CleanGuideId(id);
    SubForbiddenIdentity(t);
    PreReplaceRedundant(t);
    StripCleanIsIdentity(t);
  }

  /** The cleaned identifier is exactly the strip of the character-wise mapped
      input: whatever slice satisfies the strip property is the result. */
  lemma CleanIsStripOfMapped(s: string, r: string, i: int)
    requires StrippedAt(SubForbidden(s), r, i)
    ensures CleanGuideId(Some(s)) == r
  {
    var m := SubForbidden(s);
    var c := CleanGuideId(Some(s));
    var j :| StrippedAt(m, c, j);
    StrippedUnique(m, r, i, c, j);
  }
}
