/** The two sanitisers the list view applies to platform names before splicing them into markup:
    `esc` for single-quoted inline handler arguments and `safeId` for element ids. */
module Escape {
  import opened Wrappers
  import Text

  /** `s.replace(/c/g, rep)` for a one-character pattern: every occurrence of `c` becomes `rep`. */
  function ReplaceAll(s: string, c: char, rep: string): (r: string)
    ensures c !in s ==> r == s
    ensures c !in rep ==> c !in r
  {
    if s == [] then []
    else (if s[0] == c then rep else [s[0]]) + ReplaceAll(s[1..], c, rep)
  }

  lemma {:induction false} ReplaceAllConcat(a: string, b: string, c: char, rep: string)
    ensures ReplaceAll(a + b, c, rep) == ReplaceAll(a, c, rep) + ReplaceAll(b, c, rep)
  {
    if a == [] {
      assert a + b == b;
    } else {
      assert (a + b)[1..] == a[1..] + b;
      ReplaceAllConcat(a[1..], b, c, rep);
    }
  }

  // ---------------------------------------------------------------------------
  // esc

  /** The two characters `esc` protects. */
  predicate NeedsEscape(c: char) {
    c == '\\' || c == '\''
  }

  function CountNeedsEscape(s: string): nat {
    if s == [] then 0 else (if NeedsEscape(s[0]) then 1 else 0) + CountNeedsEscape(s[1..])
  }

  /** `esc(s)`: first doubles every backslash, then puts a backslash before every quote. A name
      with neither passes unchanged; `EscCons` gives the character-by-character reading. */
  function Esc(s: string): (r: string)
    ensures '\\' !in s && '\'' !in s ==> r == s
  {
    ReplaceAll(ReplaceAll(s, '\\', "\\\\"), '\'', "\\'")
  }

  /** What `esc` does to a single character. */
  function EscChar(c: char): string {
    if NeedsEscape(c) then ['\\', c] else [c]
  }

  /** The two passes amount to escaping character by character: only `\` and `'` change,
      and each of them gets exactly one backslash in front. */
  lemma EscCons(c: char, t: string)
    ensures Esc([c] + t) == EscChar(c) + Esc(t)
  {
    var s := [c] + t;
    assert s[1..] == t;
    var first := if c == '\\' then "\\\\" else [c];
    assert ReplaceAll(s, '\\', "\\\\") == first + ReplaceAll(t, '\\', "\\\\");
    ReplaceAllConcat(first, ReplaceAll(t, '\\', "\\\\"), '\'', "\\'");
    if c == '\\' {
      assert ReplaceAll(first, '\'', "\\'") == "\\\\" by {
        assert first[1..] == "\\";
        assert first[1..][1..] == [];
      }
    } else {
      assert first[1..] == [];
    }
  }

  /** Escaping lengthens the name by exactly one character per `\` and `'`. */
  lemma {:induction false} EscLength(s: string)
    ensures |Esc(s)| == |s| + CountNeedsEscape(s)
  {
    if s != [] {
      assert s == [s[0]] + s[1..];
      EscCons(s[0], s[1..]);
      EscLength(s[1..]);
    }
  }

  /** The characters that end a line. A JavaScript string literal may not hold them raw. */
  predicate IsLineBreak(c: char) {
    c == '\n' || c == '\r'
  }

  predicate NoLineBreaks(s: string) {
    forall i :: 0 <= i < |s| ==> !IsLineBreak(s[i])
  }

  /** The character an escape `\c` stands for, among the escapes used here: `\\`, `\'`, `\n`
      and `\r`. */
  function EscapedChar(c: char): (o: Option<char>)
    ensures o.Some? <==> NeedsEscape(c) || c == 'n' || c == 'r'
  {
    if NeedsEscape(c) then Some(c)
    else if c == 'n' then Some('\n')
    else if c == 'r' then Some('\r')
    else None
  }

  /** How the JavaScript parser reads the body of a single-quoted string literal, restricted to
      the escapes `\\`, `\'`, `\n` and `\r`. `None` for a body that would end the literal early
      (a bare quote), breaks the line (a raw line feed or carriage return, a syntax error) or
      holds any other escape. */
  function Unescape(r: string): (u: Option<string>)
    ensures u.Some? ==> |u.value| <= |r|
  {
    if r == [] then Some([])
    else if r[0] == '\\' then
      if |r| >= 2 && EscapedChar(r[1]).Some? then
        match Unescape(r[2..])
        case Some(t) => Some([EscapedChar(r[1]).value] + t)
        case None => None
      else None
    else if r[0] == '\'' || IsLineBreak(r[0]) then None
    else
      match Unescape(r[1..])
      case Some(t) => Some([r[0]] + t)
      case None => None
  }

  /** Reading the escaped platform name back gives the original name, for a name on one line. */
  lemma {:induction false} EscRoundTrip(s: string)
    requires NoLineBreaks(s)
    ensures Unescape(Esc(s)) == Some(s)
  {
    if s == [] {
    } else {
      assert s == [s[0]] + s[1..];
      assert !IsLineBreak(s[0]);
      EscCons(s[0], s[1..]);
      EscRoundTrip(s[1..]);
      var r := Esc(s);
      if NeedsEscape(s[0]) {
        assert r[2..] == Esc(s[1..]);
      } else {
        assert r[1..] == Esc(s[1..]);
      }
    }
  }

  /** `esc` leaves line breaks raw, so for a name holding one the handler text is no string
      literal at all. */
  lemma {:induction false} EscLineBreakUnreadable(s: string)
    requires !NoLineBreaks(s)
    ensures Unescape(Esc(s)) == None
  {
    assert s != [];
    assert s == [s[0]] + s[1..];
    EscCons(s[0], s[1..]);
    var r := Esc(s);
    if IsLineBreak(s[0]) {
      assert r[0] == s[0];
    } else {
      var i :| 0 <= i < |s| && IsLineBreak(s[i]);
      assert s[1..][i - 1] == s[i];
      EscLineBreakUnreadable(s[1..]);
      if NeedsEscape(s[0]) {
        assert r[2..] == Esc(s[1..]);
      } else {
        assert r[1..] == Esc(s[1..]);
      }
    }
  }

  /** A name with a line break: the smallest input that shows it. */
  lemma LineBreakInName()
    ensures Unescape(Esc("a\nb")) == None
  {
    assert "a\nb"[1] == '\n';
    EscLineBreakUnreadable("a\nb");
  }

  /** What the escape should do to a single character: also line breaks get an escape. */
  function EscLiteralChar(c: char): string {
    if NeedsEscape(c) then ['\\', c]
    else if c == '\n' then "\\n"
    else if c == '\r' then "\\r"
    else [c]
  }

  /** `esc` extended to line breaks: every name becomes a well-formed literal body, and a name
      on one line is escaped exactly as `esc` does. */
  function EscLiteral(s: string): (r: string)
    ensures NoLineBreaks(s) ==> r == Esc(s)
  {
    if s == [] then []
    else
      var r := EscLiteralChar(s[0]) + EscLiteral(s[1..]);
      if NoLineBreaks(s) then
        assert NoLineBreaks(s[1..]) by {
          forall i | 0 <= i < |s[1..]| ensures !IsLineBreak(s[1..][i]) { assert s[1..][i] == s[i + 1]; }
        }
        assert !IsLineBreak(s[0]);
        assert s == [s[0]] + s[1..];
        EscCons(s[0], s[1..]);
        r
      else r
  }

  /** Reading an escaped character followed by more of a body. */
  lemma UnescapeEscLiteralChar(c: char, t: string)
    ensures Unescape(EscLiteralChar(c) + t)
            == (match Unescape(t) case Some(u) => Some([c] + u) case None => None)
  {
    var r := EscLiteralChar(c) + t;
    if NeedsEscape(c) || IsLineBreak(c) {
      assert r[0] == '\\' && EscapedChar(r[1]) == Some(c);
      assert r[2..] == t;
    } else {
      assert r[0] == c && r[1..] == t;
    }
  }

  /** Every name, line breaks included, reads back from its corrected escape. */
  lemma {:induction false} EscLiteralRoundTrip(s: string)
    ensures Unescape(EscLiteral(s)) == Some(s)
  {
    if s != [] {
      EscLiteralRoundTrip(s[1..]);
      UnescapeEscLiteralChar(s[0], EscLiteral(s[1..]));
      assert s == [s[0]] + s[1..];
    }
  }

  /** Conversely, every literal body that `Unescape` reads, one whose escapes are only `\\`,
      `\'`, `\n` and `\r`, is the corrected escape of what it reads as. So `EscLiteral` is a
      bijection between strings and those bodies. */
  lemma {:induction false} UnescapeThenEscLiteral(r: string, s: string)
    requires Unescape(r) == Some(s)
    ensures EscLiteral(s) == r
  {
    if r == [] {
    } else if r[0] == '\\' {
      var t := Unescape(r[2..]).value;
      UnescapeThenEscLiteral(r[2..], t);
      var c := EscapedChar(r[1]).value;
      assert s == [c] + t;
      assert s[1..] == t;
      assert EscLiteralChar(c) == [r[0], r[1]];
      assert r == [r[0], r[1]] + r[2..];
    } else {
      var t := Unescape(r[1..]).value;
      UnescapeThenEscLiteral(r[1..], t);
      assert s == [r[0]] + t;
      assert s[1..] == t;
      assert r == [r[0]] + r[1..];
    }
  }

  // ---------------------------------------------------------------------------
  // safeId

  /** ASCII letters and digits, and the hyphen: the characters `safeId` keeps. */
  predicate IsIdChar(c: char) {
    ('a' <= c <= 'z') || ('A' <= c <= 'Z') || ('0' <= c <= '9') || c == '-'
  }

  predicate AllIdChars(s: string) {
    forall i :: 0 <= i < |s| ==> IsIdChar(s[i])
  }

  /** The characters of `[\s'"]`, which `safeId` turns into hyphens. */
  predicate IsSeparator(c: char) {
    Text.IsWhitespace(c) || c == '\'' || c == '"'
  }

  /** First pass of `safeId`: `replace(/[\s'"]/g, "-")`. */
  function Hyphenate(s: string): (r: string)
    ensures |r| == |s|
    ensures forall i :: 0 <= i < |s| ==> r[i] == (if IsSeparator(s[i]) then '-' else s[i])
  {
    if s == [] then [] else [if IsSeparator(s[0]) then '-' else s[0]] + Hyphenate(s[1..])
  }

  /** Second pass of `safeId`: `replace(/[^a-zA-Z0-9-]/g, "")`. */
  function KeepIdChars(s: string): (r: string)
    ensures |r| <= |s|
    ensures AllIdChars(r)
  {
    if s == [] then []
    else if IsIdChar(s[0]) then [s[0]] + KeepIdChars(s[1..])
    else KeepIdChars(s[1..])
  }

  /** The `safeId` body of a platform name, and `safeId` itself. */
  function IdSuffix(platform: string): string {
    KeepIdChars(Hyphenate(platform))
  }

  function SafeId(platform: string): (r: string)
    ensures Text.StartsWith(r, "body-")
    ensures AllIdChars(r[5..])
    ensures |r| <= 5 + |platform|
  {
    "body-" + IdSuffix(platform)
  }

  /** What `safeId` does to a single character of the name. */
  function IdChars(c: char): string {
    if IsSeparator(c) then "-" else if IsIdChar(c) then [c] else []
  }

  /** Character by character: separators become `-`, letters, digits and `-` stay,
      everything else is dropped. */
  lemma IdSuffixCons(c: char, t: string)
    ensures IdSuffix([c] + t) == IdChars(c) + IdSuffix(t)
  {
    var s := [c] + t;
    assert s[1..] == t;
    assert Hyphenate(s) == [Hyphenate(s)[0]] + Hyphenate(t);
    assert Hyphenate(s)[1..] == Hyphenate(t);
  }

  /** A name made only of letters, digits and hyphens is its own id suffix, so the
      sanitiser is idempotent. */
  lemma {:induction false} IdSuffixOfSafe(s: string)
    requires AllIdChars(s)
    ensures IdSuffix(s) == s
  {
    if s != [] {
      assert s == [s[0]] + s[1..];
      IdSuffixCons(s[0], s[1..]);
      IdSuffixOfSafe(s[1..]);
    }
  }

  lemma IdSuffixIdempotent(s: string)
    ensures IdSuffix(IdSuffix(s)) == IdSuffix(s)
  {
    IdSuffixOfSafe(IdSuffix(s));
  }
}
