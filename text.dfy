/**
 * The few functions of Go's `strings` and `path/filepath` packages that the
 * handlers rely on, on strings taken as sequences of characters.
 */
module Text {

  /** `strings.HasPrefix`. */
  predicate HasPrefix(s: string, prefix: string) {
    |prefix| <= |s| && s[..|prefix|] == prefix
  }

  /** A prefix of `a` is still a prefix once something is appended to `a`. */
  lemma PrefixOfConcat(a: string, b: string, prefix: string)
    requires HasPrefix(a, prefix)
    ensures HasPrefix(a + b, prefix)
  {
    assert (a + b)[..|prefix|] == a[..|prefix|];
  }

  /**
   * Lower-casing of one character, exact for every character whose lower
   * case is ASCII: the letters 'A' to 'Z', U+0130 LATIN CAPITAL LETTER I WITH
   * DOT ABOVE (to 'i') and U+212A KELVIN SIGN (to 'k'), as `unicode.ToLower`
   * maps them. Every other character is kept; where Go lowers one of those,
   * neither the character nor its lower case is ASCII (AgreesOnAscii).
   */
  function LowerChar(c: char): char {
    if 'A' <= c <= 'Z' then (c as int + 32) as char
    else if c == '\U{0130}' then 'i'
    else if c == '\U{212A}' then 'k'
    else c
  }

  predicate IsAscii(c: char) {
    c as int < 128
  }

  /**
   * `lower` is a lower-casing of characters (Go's `unicode.ToLower` is one)
   * that agrees with LowerChar wherever either of them gives ASCII.
   */
  ghost predicate AgreesOnAscii(lower: char -> char) {
    forall c :: IsAscii(lower(c)) || IsAscii(LowerChar(c)) ==> lower(c) == LowerChar(c)
  }

  /** `strings.Map`: `f` applied to every character. */
  function MapChars(s: string, f: char -> char): (r: string)
    ensures |r| == |s|
    ensures forall i :: 0 <= i < |s| ==> r[i] == f(s[i])
  {
    if s == [] then [] else [f(s[0])] + MapChars(s[1..], f)
  }

  /**
   * A lower-casing that agrees with LowerChar wherever either gives ASCII
   * lowers a string to a given ASCII string exactly when ToLower does.
   */
  lemma LoweringAgreesOnAsciiResults(s: string, lower: char -> char, t: string)
    requires AgreesOnAscii(lower)
    requires forall k :: 0 <= k < |t| ==> IsAscii(t[k])
    ensures MapChars(s, lower) == t <==> ToLower(s) == t
  {
    var m, l := MapChars(s, lower), ToLower(s);
    if m == t {
      forall k | 0 <= k < |s|
        ensures l[k] == t[k]
      {
        assert IsAscii(lower(s[k]));
      }
      assert l == t;
    }
    if l == t {
      forall k | 0 <= k < |s|
        ensures m[k] == t[k]
      {
        assert IsAscii(LowerChar(s[k]));
      }
      assert m == t;
    }
  }

  /** The same, for membership in a list of ASCII strings. */
  lemma LoweringAgreesOnAsciiMembership(s: string, lower: char -> char, ts: seq<string>)
    requires AgreesOnAscii(lower)
    requires forall i, k :: 0 <= i < |ts| && 0 <= k < |ts[i]| ==> IsAscii(ts[i][k])
    ensures MapChars(s, lower) in ts <==> ToLower(s) in ts
  {
    forall i | 0 <= i < |ts|
      ensures MapChars(s, lower) == ts[i] <==> ToLower(s) == ts[i]
    {
      LoweringAgreesOnAsciiResults(s, lower, ts[i]);
    }
  }

  /** `strings.ToLower`, exact wherever the result is ASCII (see LowerChar). */
  function ToLower(s: string): (r: string)
    ensures |r| == |s|
    ensures forall i :: 0 <= i < |s| ==> r[i] == LowerChar(s[i])
  {
    if s == [] then [] else [LowerChar(s[0])] + ToLower(s[1..])
  }

  /** Lower-casing twice is lower-casing once. */
  lemma ToLowerIdempotent(s: string)
    ensures ToLower(ToLower(s)) == ToLower(s)
  {
  }

  /** No dot and no path separator occurs in `s`. */
  predicate PlainSegment(s: string) {
    forall k :: 0 <= k < |s| ==> s[k] != '.' && s[k] != '/'
  }

  /**
   * `filepath.Ext` on a slash-separated path: the suffix that starts at the
   * last '.' of the final path element, or "" when that element has no dot.
   */
  function Ext(path: string): (e: string)
    ensures |e| <= |path| && e == path[|path| - |e|..]
    ensures e != "" ==> e[0] == '.' && PlainSegment(e[1..])
  {
    if path == [] then ""
    else
      var c := path[|path| - 1];
      if c == '/' then ""
      else if c == '.' then "."
      else
        var e := Ext(path[..|path| - 1]);
        if e == "" then "" else e + [c]
  }

  /**
   * A path whose final element has no dot has no extension, whatever comes
   * before its last separator.
   */
  lemma {:induction false} ExtOfPlainTail(dir: string, tail: string)
    requires PlainSegment(tail)
    requires dir == [] || dir[|dir| - 1] == '/'
    ensures Ext(dir + tail) == ""
  {
    if tail == [] {
      assert dir + tail == dir;
    } else {
      var p := dir + tail;
      assert p[..|p| - 1] == dir + tail[..|tail| - 1];
      ExtOfPlainTail(dir, tail[..|tail| - 1]);
    }
  }

  /** One step of `Ext`: a last character other than '.' and '/' extends a found extension. */
  lemma ExtStep(path: string)
    requires path != [] && path[|path| - 1] != '/' && path[|path| - 1] != '.'
    ensures var e := Ext(path[..|path| - 1]);
      Ext(path) == if e == "" then "" else e + [path[|path| - 1]]
  {
  }

  /**
   * Whatever the stem, a name ending in '.' followed by a plain segment has
   * exactly that ending as its extension.
   */
  lemma {:induction false} ExtOfSuffix(stem: string, ext: string)
    requires |ext| >= 1 && ext[0] == '.' && PlainSegment(ext[1..])
    ensures Ext(stem + ext) == ext
  {
    var p := stem + ext;
    if |ext| == 1 {
      assert p[|p| - 1] == '.';
    } else {
      var shorter := ext[..|ext| - 1];
      var c := ext[|ext| - 1];
      assert c == ext[1..][|ext| - 2];
      assert shorter[1..] == ext[1..|ext| - 1];
      assert PlainSegment(shorter[1..]);
      assert p[..|p| - 1] == stem + shorter;
      assert p[|p| - 1] == c;
      ExtOfSuffix(stem, shorter);
      ExtStep(p);
      assert ext == shorter + [c];
    }
  }

  /** Lower-casing keeps an extension an extension: the '.' stays and no '.' or '/' appears. */
  lemma ToLowerKeepsExtensionShape(ext: string)
    requires |ext| >= 1 && ext[0] == '.' && PlainSegment(ext[1..])
    ensures var lower := ToLower(ext); |lower| >= 1 && lower[0] == '.' && PlainSegment(lower[1..])
  {
    var lower := ToLower(ext);
    forall k | 0 <= k < |lower[1..]|
      ensures lower[1..][k] != '.' && lower[1..][k] != '/'
    {
      assert lower[1..][k] == LowerChar(ext[1..][k]);
    }
  }
}
