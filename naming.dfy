/**
 Name composition: the new display name of a proxy built from its country
 code, the optional label prefix (`name` argument) and the `flag` toggle.
 */
module Naming {
  import opened Wrappers
  import opened Text

  /** The caller's options: the URL-decoded `name` argument ("" when absent)
      and the `flag` argument. */
  datatype Options = Options(prefix: string, addFlag: bool)

  /** The country codes that have an entry in the flag table `FG`. */
  const FlagCodes: set<string> := {
    "HK", "MO", "TW", "JP", "KR", "SG",
    "US", "GB", "FR", "DE", "AU", "CA",
    "NL", "CH", "SE", "IE", "RU", "BR",
    "IN", "ID", "TH", "VN", "PH", "MY",
    "CN"
  }

  predicate IsUpper(c: char) {
    'A' <= c <= 'Z'
  }

  /** The Unicode regional indicator symbol for an upper-case ASCII letter. */
  function RegionalIndicator(letter: char): (c: char)
    requires IsUpper(letter)
    ensures '\U{1F1E6}' <= c <= '\U{1F1FF}'
  {
    (0x1F1E6 + (letter as int - 'A' as int)) as char
  }

  /** The flag emoji of a two-letter code: its two regional indicators. */
  function FlagGlyph(code: string): (glyph: string)
    ensures forall k :: 0 <= k < |glyph| ==> '\U{1F1E6}' <= glyph[k] <= '\U{1F1FF}'
  {
    if |code| == 2 && IsUpper(code[0]) && IsUpper(code[1])
    then [RegionalIndicator(code[0]), RegionalIndicator(code[1])]
    else ""
  }

  /** The flag table `FG`. */
  const FG: map<string, string> := map code | code in FlagCodes :: FlagGlyph(code)

  /** Every code of the table is two upper-case letters. */
  lemma FlagCodeIsLetterPair(code: string)
    requires code in FlagCodes
    ensures |code| == 2 && IsUpper(code[0]) && IsUpper(code[1])
  {
    if code in {"HK", "MO", "TW", "JP", "KR", "SG"} {
    } else if code in {"US", "GB", "FR", "DE", "AU", "CA"} {
    } else if code in {"NL", "CH", "SE", "IE", "RU", "BR"} {
    } else if code in {"IN", "ID", "TH", "VN", "PH", "MY"} {
    }
  }

  /** Every table entry is a two-symbol flag spelling its code. */
  lemma FlagTableEntries(code: string)
    requires code in FG
    ensures |FG[code]| == 2
    ensures FG[code] == [RegionalIndicator(code[0]), RegionalIndicator(code[1])]
  {
    FlagCodeIsLetterPair(code);
  }

  /** The name a proxy gets: unchanged without a code; otherwise the code,
      after the prefix (and a space when `flag` is set), after the flag
      glyph and a space when `flag` is set and the table has the code. */
  function ComposeName(oldName: string, code: Option<string>, opts: Options): (name: string)
    ensures (code.None? || code.value == "") ==> name == oldName
    ensures code.Some? && code.value != "" ==>
      |code.value| <= |name| && name[|name| - |code.value|..] == code.value
  {
    match code
    case None => oldName
    case Some(c) =>
      if c == "" then oldName
      else
        var prefixed := if opts.prefix != "" then opts.prefix + (if opts.addFlag then " " else "") + c else c;
        if opts.addFlag && c in FG then FG[c] + " " + prefixed else prefixed
  }

  /** Without options the name is the code itself. */
  lemma ComposeWithoutOptions(oldName: string, c: string)
    requires c != ""
    ensures ComposeName(oldName, Some(c), Options("", false)) == c
  {
  }

  /** With a prefix and no flag, the prefix is glued to the code. */
  lemma ComposePrefixWithoutFlag(oldName: string, c: string, prefix: string)
    requires c != "" && prefix != ""
    ensures ComposeName(oldName, Some(c), Options(prefix, false)) == prefix + c
  {
  }

  /** With the flag on, a known code's glyph and a space come first, before any prefix. */
  lemma ComposeFlagComesFirst(oldName: string, c: string, prefix: string)
    requires c in FG
    ensures var name := ComposeName(oldName, Some(c), Options(prefix, true));
      name == FG[c] + " " + (if prefix != "" then prefix + " " else "") + c
  {
  }

  /** With the flag on and no glyph for the code, nothing is prepended, yet
      the space after the prefix is still inserted. */
  lemma ComposeFlagWithoutGlyph(oldName: string, c: string, prefix: string)
    requires c != "" && c !in FG
    ensures ComposeName(oldName, Some(c), Options(prefix, true)) == (if prefix != "" then prefix + " " else "") + c
  {
  }

  /** A character that is neither a space nor a regional indicator appears
      in the composed name only if it appears in the old name, the prefix or the code. */
  lemma ComposeNameAvoids(x: char, oldName: string, code: Option<string>, opts: Options)
    requires x != ' ' && !('\U{1F1E6}' <= x <= '\U{1F1FF}')
    requires x !in oldName && x !in opts.prefix
    requires code.Some? ==> x !in code.value
    ensures x !in ComposeName(oldName, code, opts)
  {
    if code.Some? && code.value in FG {
      assert x !in FG[code.value];
    }
  }

  /** A name the classifier reads back as it is: non-empty, trimmed, not a
      section header and free of `=`. */
  predicate IsPlainName(s: string) {
    s != [] && IsTrimmed(s) && s[0] != '[' && '=' !in s
  }

  /** A prefix that does not disturb the start of the name: empty, or
      starting with neither whitespace nor `[`, and free of `=`. */
  predicate IsPlainPrefix(p: string) {
    p == [] || (!IsWhitespace(p[0]) && p[0] != '[' && '=' !in p)
  }

  /** A composed name ends with the code's last character. */
  lemma ComposedNameLast(oldName: string, c: string, opts: Options)
    requires c != ""
    ensures var name := ComposeName(oldName, Some(c), opts);
      name != [] && name[|name| - 1] == c[|c| - 1]
  {
    var name := ComposeName(oldName, Some(c), opts);
    assert name[|name| - |c|..][|c| - 1] == name[|name| - 1];
  }

  /** A composed name starts with the flag glyph, the prefix or the code, so
      it starts with neither whitespace nor `[` when the prefix and the code do not. */
  lemma ComposedNameFirst(oldName: string, c: string, opts: Options)
    requires c != "" && !IsWhitespace(c[0]) && c[0] != '['
    requires opts.prefix != "" ==> !IsWhitespace(opts.prefix[0]) && opts.prefix[0] != '['
    ensures var name := ComposeName(oldName, Some(c), opts);
      name != [] && !IsWhitespace(name[0]) && name[0] != '['
  {
    var prefixed := if opts.prefix != "" then opts.prefix + (if opts.addFlag then " " else "") + c else c;
    assert prefixed[0] == (if opts.prefix != "" then opts.prefix[0] else c[0]);
    if opts.addFlag && c in FG {
      FlagTableEntries(c);
      assert ComposeName(oldName, Some(c), opts) == FG[c] + " " + prefixed;
      assert '\U{1F1E6}' <= FG[c][0] <= '\U{1F1FF}';
    } else {
      assert ComposeName(oldName, Some(c), opts) == prefixed;
    }
  }

  /** Composition keeps names plain: from a plain old name, a plain prefix
      and a plain code it builds a plain name. */
  lemma ComposeNameIsPlain(oldName: string, code: Option<string>, opts: Options)
    requires IsPlainName(oldName) && IsPlainPrefix(opts.prefix)
    requires code.Some? && code.value != "" ==> IsPlainName(code.value)
    ensures IsPlainName(ComposeName(oldName, code, opts))
  {
    ComposeNameAvoids('=', oldName, code, opts);
    if code.Some? && code.value != "" {
      ComposedNameLast(oldName, code.value, opts);
      ComposedNameFirst(oldName, code.value, opts);
    }
  }
}
