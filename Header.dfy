/** The two header rewrites of the cleaner, df.columns.str.strip() and then
    df.columns.str.lower(): Python's str.strip() with no argument and
    str.lower(), applied to every column name. */
module Header {

  /** The characters Python's str.isspace() accepts, which str.strip()
      removes from both ends. */
  predicate IsSpace(c: char)
  {
    ('\t' <= c <= '\r') || ('\U{1c}' <= c <= '\U{1f}') || c == ' ' ||
    c == '\U{85}' || c == '\U{a0}' || c == '\U{1680}' ||
    ('\U{2000}' <= c <= '\U{200a}') || c == '\U{2028}' || c == '\U{2029}' ||
    c == '\U{202f}' || c == '\U{205f}' || c == '\U{3000}'
  }

  /** Upper-case letters of the Basic Latin and Latin-1 blocks, each of which
      str.lower() maps to the letter 0x20 code points above it. */
  predicate IsUpper(c: char)
  {
    ('A' <= c <= 'Z') || ('\U{c0}' <= c <= '\U{de}' && c != '\U{d7}')
  }

  function LowerChar(c: char): (d: char)
    ensures IsUpper(c) ==> d as int == c as int + 32
    ensures !IsUpper(c) ==> d == c
  {
    if IsUpper(c) then (c as int + 32) as char else c
  }

  /** How many white-space characters the name starts with. */
  function LeadingSpaces(s: string): (n: nat)
    ensures n <= |s|
    ensures forall k :: 0 <= k < n ==> IsSpace(s[k])
    ensures n < |s| ==> !IsSpace(s[n])
  {
    if s == [] || !IsSpace(s[0]) then 0 else 1 + LeadingSpaces(s[1..])
  }

  /** How many white-space characters the name ends with. */
  function TrailingSpaces(s: string): (n: nat)
    ensures n <= |s|
    ensures forall k :: |s| - n <= k < |s| ==> IsSpace(s[k])
    ensures n < |s| ==> !IsSpace(s[|s| - n - 1])
  {
    if s == [] || !IsSpace(s[|s| - 1]) then 0 else 1 + TrailingSpaces(s[..|s| - 1])
  }

  /** str.strip(): the name without its leading and trailing white space. */
  function Strip(s: string): (r: string)
    ensures |r| <= |s|
    ensures r == [] <==> forall k :: 0 <= k < |s| ==> IsSpace(s[k])
    ensures r != [] ==> !IsSpace(r[0]) && !IsSpace(r[|r| - 1])
  {
    var lead := LeadingSpaces(s);
    if lead == |s| then [] else s[lead..|s| - TrailingSpaces(s)]
  }

  /** str.lower() on the letters modelled here. */
  function Lower(s: string): (r: string)
    ensures |r| == |s|
    ensures forall k :: 0 <= k < |s| ==> r[k] == LowerChar(s[k])
  {
    seq(|s|, k requires 0 <= k < |s| => LowerChar(s[k]))
  }

  /** What one column name becomes: stripped first, then lower-cased. */
  function Normalise(name: string): (r: string)
    ensures |r| <= |name|
    ensures forall k :: 0 <= k < |r| ==> !IsUpper(r[k])
  {
    Lower(Strip(name))
  }

  /** df.columns.str.strip() */
  function StripAll(names: seq<string>): (r: seq<string>)
    ensures |r| == |names|
    ensures forall k :: 0 <= k < |names| ==> r[k] == Strip(names[k])
  {
    seq(|names|, k requires 0 <= k < |names| => Strip(names[k]))
  }

  /** df.columns.str.lower() */
  function LowerAll(names: seq<string>): (r: seq<string>)
    ensures |r| == |names|
    ensures forall k :: 0 <= k < |names| ==> r[k] == Lower(names[k])
  {
    seq(|names|, k requires 0 <= k < |names| => Lower(names[k]))
  }

  /** Strip removes white space from the two ends and nothing else: the result
      is a contiguous piece of the name, everything cut off is white space,
      and the result neither starts nor ends with white space. */
  lemma StripCutsOnlySpaces(s: string)
    ensures exists i, j :: (0 <= i <= j <= |s| && Strip(s) == s[i..j] &&
                            (forall k :: 0 <= k < i ==> IsSpace(s[k])) &&
                            (forall k :: j <= k < |s| ==> IsSpace(s[k])))
    ensures Strip(s) != [] ==> !IsSpace(Strip(s)[0]) && !IsSpace(Strip(s)[|Strip(s)| - 1])
  {
    var lead, trail := LeadingSpaces(s), TrailingSpaces(s);
    if lead == |s| {
      assert Strip(s) == s[0..0];
    } else {
      assert !IsSpace(s[lead]);
      assert lead <= |s| - trail - 1;
      assert Strip(s) == s[lead..|s| - trail];
    }
  }

  /** A name that neither starts nor ends with white space is left as it is. */
  lemma StripTrimmed(s: string)
    requires s != [] ==> !IsSpace(s[0]) && !IsSpace(s[|s| - 1])
    ensures Strip(s) == s
  {
    if s != [] {
      assert LeadingSpaces(s) == 0 && TrailingSpaces(s) == 0;
      assert s[0..|s|] == s;
    }
  }

  /** Stripping an already stripped name changes nothing. */
  lemma StripIdempotent(s: string)
    ensures Strip(Strip(s)) == Strip(s)
  {
    StripTrimmed(Strip(s));
  }

  /** Lower-casing changes no character into or out of white space. */
  lemma LowerKeepsSpaces(s: string)
    ensures forall k :: 0 <= k < |s| ==> (IsSpace(Lower(s)[k]) <==> IsSpace(s[k]))
  {
  }

  /** Normalising a name twice is normalising it once: the header of a
      cleaned artifact is already normal. */
  lemma NormaliseIdempotent(name: string)
    ensures Normalise(Normalise(name)) == Normalise(name)
  {
    var t := Strip(name);
    var u := Lower(t);
    LowerKeepsSpaces(t);
    StripTrimmed(u);
    assert Lower(u) == u;
  }

  /** A normalised name has no upper-case letter of the modelled blocks and
      neither starts nor ends with white space. */
  lemma NormaliseResult(name: string)
    ensures forall k :: 0 <= k < |Normalise(name)| ==> !IsUpper(Normalise(name)[k])
    ensures Normalise(name) != [] ==>
      !IsSpace(Normalise(name)[0]) && !IsSpace(Normalise(name)[|Normalise(name)| - 1])
  {
    var t := Strip(name);
    StripCutsOnlySpaces(name);
    LowerKeepsSpaces(t);
  }
}
