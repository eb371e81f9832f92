/** The two string operations of the editor's input field: the JavaScript
    `String.prototype.trim` that guards the Enter key, and the placeholder
    shown for the selected language. */
module Text {

  /** The characters `trim` removes: the JavaScript WhiteSpace and
      LineTerminator code points (tab, vertical tab, form feed, space,
      no-break space, byte order mark, the other space separators of Unicode
      category Zs, line feed, carriage return, line and paragraph separator). */
  const WHITESPACE: set<char> := {
    '\t', '\n', '\U{000B}', '\U{000C}', '\r', ' ', '\U{00A0}', '\U{1680}',
    '\U{2000}', '\U{2001}', '\U{2002}', '\U{2003}', '\U{2004}', '\U{2005}',
    '\U{2006}', '\U{2007}', '\U{2008}', '\U{2009}', '\U{200A}',
    '\U{2028}', '\U{2029}', '\U{202F}', '\U{205F}', '\U{3000}', '\U{FEFF}'
  }

  predicate IsWhitespace(c: char)
  {
    c in WHITESPACE
  }

  /** True iff `s` holds only whitespace from index `lo` up to `hi`. */
  predicate WhitespaceBetween(s: string, lo: int, hi: int)
    requires 0 <= lo <= hi <= |s|
  {
    forall k :: lo <= k < hi ==> IsWhitespace(s[k])
  }

  /** True iff `s` holds nothing but whitespace (the empty string included). */
  predicate IsBlank(s: string)
  {
    WhitespaceBetween(s, 0, |s|)
  }

  /** `s` without its leading whitespace: a suffix of `s` that starts with a
      non-whitespace character (or is empty), and what was cut is whitespace. */
  function TrimStart(s: string): (r: string)
    ensures |r| <= |s| && r == s[|s| - |r|..]
    ensures WhitespaceBetween(s, 0, |s| - |r|)
    ensures r != [] ==> !IsWhitespace(r[0])
  {
    if s != [] && IsWhitespace(s[0]) then TrimStart(s[1..]) else s
  }

  /** `s` without its trailing whitespace: a prefix of `s` that ends with a
      non-whitespace character (or is empty), and what was cut is whitespace. */
  function TrimEnd(s: string): (r: string)
    ensures |r| <= |s| && r == s[..|r|]
    ensures WhitespaceBetween(s, |r|, |s|)
    ensures r != [] ==> !IsWhitespace(r[|r| - 1])
  {
    if s != [] && IsWhitespace(s[|s| - 1]) then TrimEnd(s[..|s| - 1]) else s
  }

  /** `String.prototype.trim`: `s` with whitespace cut from both ends. */
  function Trim(s: string): (r: string)
    ensures |r| <= |s|
    ensures r != [] ==> !IsWhitespace(r[0]) && !IsWhitespace(r[|r| - 1])
  {
    TrimEnd(TrimStart(s))
  }

  /** `r` is the slice of `s` that starts at `i`, with only whitespace
      around it in `s`, and neither end of `r` is whitespace. */
  predicate InnerSlice(s: string, i: nat, r: string)
  {
    && i + |r| <= |s| && r == s[i..i + |r|]
    && WhitespaceBetween(s, 0, i) && WhitespaceBetween(s, i + |r|, |s|)
    && (r != [] ==> !IsWhitespace(r[0]) && !IsWhitespace(r[|r| - 1]))
  }

  /** The trimmed text is the piece of the input that starts after its
      leading whitespace, with only whitespace around it, and neither of its
      ends is whitespace. */
  lemma TrimIsInnerSlice(s: string)
    ensures InnerSlice(s, |s| - |TrimStart(s)|, Trim(s))
  {
    var t := TrimStart(s);
    PrefixOfSuffix(s, |s| - |t|, t, TrimEnd(t));
  }

  /** A prefix `r` of the suffix `t` of `s` starting at `i`, when `t` comes
      after whitespace, starts with a non-whitespace character and has only
      whitespace after `r`, and `r` ends with a non-whitespace character, is
      an inner slice of `s`. */
  lemma PrefixOfSuffix(s: string, i: nat, t: string, r: string)
    requires i <= |s| && t == s[i..] && WhitespaceBetween(s, 0, i)
    requires |r| <= |t| && r == t[..|r|]
    requires WhitespaceBetween(t, |r|, |t|)
    requires t != [] ==> !IsWhitespace(t[0])
    requires r != [] ==> !IsWhitespace(r[|r| - 1])
    ensures InnerSlice(s, i, r)
  {
    forall k | i + |r| <= k < |s|
      ensures IsWhitespace(s[k])
    {
      assert s[k] == t[k - i];
    }
  }

  /** Trimming gives the empty string exactly when the input is blank. */
  lemma TrimEmptyIffBlank(s: string)
    ensures Trim(s) == [] <==> IsBlank(s)
  {
    var t := TrimStart(s);
    if t != [] {
      assert s[|s| - |t|] == t[0];
    }
  }

  /** The placeholder text per language key. */
  const PLACEHOLDERS: map<string, string> := map[
    "english" := "Enter text here",
    "french" := "Entrez le texte ici",
    "spanish" := "Ingrese texto aquí",
    "hindi" := "यहाँ टेक्स्ट दर्ज करें",
    "punjabi" := "ਇਥੇ ਲਿਖਾਈ ਦਰਜ ਕਰੋ"
  ]

  /** The placeholder for a language key: its entry when it has a non-empty
      one, the English text otherwise. */
  function Placeholder(language: string): (r: string)
    ensures r in PLACEHOLDERS.Values
    ensures language in PLACEHOLDERS ==> r == PLACEHOLDERS[language]
    ensures language !in PLACEHOLDERS ==> r == PLACEHOLDERS["english"]
  {
    assert PLACEHOLDERS["english"] == "Enter text here";
    if language in PLACEHOLDERS && PLACEHOLDERS[language] != "" then PLACEHOLDERS[language]
    else "Enter text here"
  }
}
