/** The Python string built-ins the pipeline relies on: `str.lower`,
    `str.strip`, `str.removeprefix` and `str.join`. */
module PyStr {

  /** `str.isspace` for the characters of the Latin-1 range. */
  predicate IsSpace(c: char)
  {
    c == ' ' || c == '\t' || c == '\n' || c == '\r' || c == '\U{0B}' || c == '\U{0C}'
    || c == '\U{1C}' || c == '\U{1D}' || c == '\U{1E}' || c == '\U{1F}'
    || c == '\U{85}' || c == '\U{A0}'
  }

  function LowerChar(c: char): char
  {
    if 'A' <= c <= 'Z' then (c as int + 32) as char else c
  }

  /** `s.lower()`, on ASCII letters. */
  function Lower(s: string): string
  {
    if s == [] then [] else [LowerChar(s[0])] + Lower(s[1..])
  }

  lemma {:induction false} LowerAt(s: string)
    ensures |Lower(s)| == |s|
    ensures forall i :: 0 <= i < |s| ==> Lower(s)[i] == LowerChar(s[i])
  {
    if s != [] {
      LowerAt(s[1..]);
    }
  }

  /** A string with no upper-case ASCII letter is its own lower-casing. */
  lemma {:induction false} LowerFixes(t: string)
    requires forall i :: 0 <= i < |t| ==> LowerChar(t[i]) == t[i]
    ensures Lower(t) == t
  {
    if t != [] {
      assert forall i :: 0 <= i < |t| - 1 ==> t[1..][i] == t[i + 1];
      LowerFixes(t[1..]);
    }
  }

  /** Lower-casing a lower-cased string changes nothing. */
  lemma LowerIdempotent(s: string)
    ensures Lower(Lower(s)) == Lower(s)
  {
    LowerAt(s);
    LowerAt(Lower(s));
  }

  /** How many whitespace characters `s` starts with. */
  function LeadingSpaces(s: string): (n: nat)
    ensures n <= |s|
  {
    if |s| > 0 && IsSpace(s[0]) then 1 + LeadingSpaces(s[1..]) else 0
  }

  /** The length of `s` without its trailing whitespace. */
  function KeptLength(s: string): (n: nat)
    ensures n <= |s|
  {
    if |s| > 0 && IsSpace(s[|s| - 1]) then KeptLength(s[..|s| - 1]) else |s|
  }

  lemma {:induction false} LeadingSpacesAt(s: string)
    ensures forall i :: 0 <= i < LeadingSpaces(s) ==> IsSpace(s[i])
    ensures LeadingSpaces(s) == |s| || !IsSpace(s[LeadingSpaces(s)])
  {
    if |s| > 0 && IsSpace(s[0]) {
      LeadingSpacesAt(s[1..]);
      assert forall i :: 0 < i < |s| ==> s[1..][i - 1] == s[i];
    }
  }

  lemma {:induction false} KeptLengthAt(s: string)
    ensures forall i :: KeptLength(s) <= i < |s| ==> IsSpace(s[i])
    ensures KeptLength(s) == 0 || !IsSpace(s[KeptLength(s) - 1])
  {
    if |s| > 0 && IsSpace(s[|s| - 1]) {
      KeptLengthAt(s[..|s| - 1]);
    }
  }

  /** `s.strip()`: drop the leading, then the trailing whitespace. */
  function Strip(s: string): string
  {
    var t := s[LeadingSpaces(s)..];
    t[..KeptLength(t)]
  }

  /** The stripped string is the slice of the input between the leading and
      the trailing whitespace, and it neither starts nor ends with
      whitespace. */
  lemma StripIsTrimmedSlice(s: string)
    ensures exists lo, hi :: (0 <= lo <= hi <= |s| && Strip(s) == s[lo..hi]
      && (forall i :: 0 <= i < lo ==> IsSpace(s[i]))
      && (forall i :: hi <= i < |s| ==> IsSpace(s[i])))
    ensures Strip(s) == [] || (!IsSpace(Strip(s)[0]) && !IsSpace(Strip(s)[|Strip(s)| - 1]))
  {
    var lo := LeadingSpaces(s);
    var t := s[lo..];
    var hi := lo + KeptLength(t);
    LeadingSpacesAt(s);
    KeptLengthAt(t);
    assert Strip(s) == s[lo..hi];
    forall i | hi <= i < |s| ensures IsSpace(s[i]) {
      assert t[i - lo] == s[i];
    }
    if Strip(s) != [] {
      assert Strip(s)[0] == s[lo];
    }
  }

  /** Stripping yields the empty string exactly when every character is
      whitespace; this is the test the request handler applies. */
  lemma {:induction false} StripEmptyIff(s: string)
    ensures Strip(s) == [] <==> forall i :: 0 <= i < |s| ==> IsSpace(s[i])
  {
    StripIsTrimmedSlice(s);
    var lo, hi :| 0 <= lo <= hi <= |s| && Strip(s) == s[lo..hi]
      && (forall i :: 0 <= i < lo ==> IsSpace(s[i]))
      && (forall i :: hi <= i < |s| ==> IsSpace(s[i]));
    if Strip(s) != [] {
      assert s[lo] == Strip(s)[0];
    }
  }

  /** Stripping twice is stripping once. */
  lemma {:induction false} StripIdempotent(s: string)
    ensures Strip(Strip(s)) == Strip(s)
  {
    var t := Strip(s);
    StripIsTrimmedSlice(s);
    if t != [] {
      assert LeadingSpaces(t) == 0;
      assert KeptLength(t) == |t|;
    }
  }

  /** `s.removeprefix(p)`. */
  function RemovePrefix(s: string, p: string): (r: string)
    ensures |p| <= |s| && s[..|p|] == p ==> p + r == s
    ensures !(|p| <= |s| && s[..|p|] == p) ==> r == s
  {
    if |p| <= |s| && s[..|p|] == p then s[|p|..] else s
  }

  /** Removing a prefix undoes prepending it. */
  lemma RemovePrefixAfterPrepend(p: string, x: string)
    ensures RemovePrefix(p + x, p) == x
  {
    assert (p + x)[..|p|] == p;
    assert (p + x)[|p|..] == x;
  }

  /** `sep.join(parts)`. */
  function Join(sep: string, parts: seq<string>): string
  {
    if |parts| == 0 then []
    else if |parts| == 1 then parts[0]
    else Join(sep, parts[..|parts| - 1]) + sep + parts[|parts| - 1]
  }

  /** Where `parts[k]` starts inside `Join(sep, parts)`. */
  function Offset(sep: string, parts: seq<string>, k: nat): nat
    requires k <= |parts|
  {
    if k == 0 then 0 else Offset(sep, parts, k - 1) + |parts[k - 1]| + |sep|
  }

  lemma {:induction false} OffsetPrefix(sep: string, parts: seq<string>, n: nat, k: nat)
    requires k <= n <= |parts|
    ensures Offset(sep, parts[..n], k) == Offset(sep, parts, k)
  {
    if k > 0 {
      OffsetPrefix(sep, parts, n, k - 1);
      assert parts[..n][k - 1] == parts[k - 1];
    }
  }

  lemma {:induction false} JoinInit(sep: string, parts: seq<string>, k: nat)
    requires 1 < |parts| && k < |parts| - 1
    ensures parts[..|parts| - 1][k] == parts[k]
    ensures Offset(sep, parts[..|parts| - 1], k) == Offset(sep, parts, k)
    ensures Offset(sep, parts[..|parts| - 1], k + 1) == Offset(sep, parts, k + 1)
  {
    OffsetPrefix(sep, parts, |parts| - 1, k);
    OffsetPrefix(sep, parts, |parts| - 1, k + 1);
  }

  /** The joined string is exactly as long as its parts and the separators
      between them. */
  lemma {:induction false} JoinLength(sep: string, parts: seq<string>)
    requires |parts| > 0
    ensures |Join(sep, parts)| == Offset(sep, parts, |parts| - 1) + |parts[|parts| - 1]|
  {
    var n := |parts|;
    if n > 1 {
      JoinLength(sep, parts[..n - 1]);
      JoinInit(sep, parts, n - 2);
    }
  }

  /** Each part appears verbatim, in order, at its offset in the join. */
  lemma {:induction false} JoinPart(sep: string, parts: seq<string>, k: nat)
    requires k < |parts|
    ensures Offset(sep, parts, k) + |parts[k]| <= |Join(sep, parts)|
    ensures Join(sep, parts)[Offset(sep, parts, k)..Offset(sep, parts, k) + |parts[k]|] == parts[k]
  {
    var n := |parts|;
    JoinLength(sep, parts);
    if n > 1 {
      var init := parts[..n - 1];
      var j := Join(sep, init);
      var o := Offset(sep, parts, k);
      JoinLength(sep, init);
      JoinInit(sep, parts, n - 2);
      if k < n - 1 {
        JoinPart(sep, init, k);
        JoinInit(sep, parts, k);
        assert (j + sep + parts[n - 1])[o..o + |parts[k]|] == j[o..o + |parts[k]|];
      } else {
        assert o == |j| + |sep|;
        assert (j + sep + parts[n - 1])[o..] == parts[n - 1];
      }
    }
  }

  /** The separator before the last part. */
  lemma JoinLastSeparator(sep: string, parts: seq<string>)
    requires 1 < |parts|
    ensures Offset(sep, parts, |parts| - 1) <= |Join(sep, parts)|
    ensures Join(sep, parts)[Offset(sep, parts, |parts| - 2) + |parts[|parts| - 2]|..Offset(sep, parts, |parts| - 1)] == sep
  {
    var n := |parts|;
    var init := parts[..n - 1];
    var j := Join(sep, init);
    JoinLength(sep, init);
    JoinInit(sep, parts, n - 2);
    var o := Offset(sep, parts, n - 2) + |parts[n - 2]|;
    assert o == |j|;
    assert Join(sep, parts) == j + sep + parts[n - 1];
    assert (j + sep + parts[n - 1])[o..o + |sep|] == sep;
  }

  /** Between two neighbouring parts stands exactly one separator. */
  lemma {:induction false} JoinSeparator(sep: string, parts: seq<string>, k: nat)
    requires k + 1 < |parts|
    ensures Offset(sep, parts, k + 1) <= |Join(sep, parts)|
    ensures Join(sep, parts)[Offset(sep, parts, k) + |parts[k]|..Offset(sep, parts, k + 1)] == sep
  {
    var n := |parts|;
    if k == n - 2 {
      JoinLastSeparator(sep, parts);
    } else {
      var init := parts[..n - 1];
      var j := Join(sep, init);
      var o := Offset(sep, parts, k) + |parts[k]|;
      var e := Offset(sep, parts, k + 1);
      JoinSeparator(sep, init, k);
      JoinInit(sep, parts, k);
      assert Join(sep, parts) == j + sep + parts[n - 1];
      assert (j + sep + parts[n - 1])[o..e] == j[o..e];
    }
  }
}
