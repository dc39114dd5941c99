/**
 * The binding-key translation of `bindQueue` (index.js:43) and the anchored
 * regular expression it builds.
 *
 * The source turns a key into a regular-expression source with three calls of
 * `String.prototype.replace` whose pattern is a string, so each replaces only
 * the FIRST occurrence: the first `.` becomes `\.`, the first `#` becomes
 * `(\w|\.)+` and the first `*` becomes `\w+`; everything else is left as it is
 * (a later `.` is then the any-character atom), and the whole is wrapped in
 * `^...$`. The translation is modelled twice: as that string, and as a token
 * sequence whose rendering is proved to be the same string; matching is a
 * recursive matcher over the tokens.
 */
module TopicPattern {

  /** One atom of the compiled expression. */
  datatype Token =
    | Lit(c: char)      // a character standing for itself
    | LitDot            // `\.`: the escaped first dot
    | AnyChar           // `.`: any character but a line terminator
    | WordPlus          // `\w+`
    | WordOrDotPlus     // `(\w|\.)+`

  const EscapedDot: string := "\\."
  const HashRegex: string := "(\\w|\\.)+"
  const StarRegex: string := "\\w+"

  /** `\w` of JavaScript regular expressions. */
  predicate IsWordChar(c: char) {
    ('A' <= c <= 'Z') || ('a' <= c <= 'z') || ('0' <= c <= '9') || c == '_'
  }

  /** The characters that `.` does not match (no `s` flag). */
  predicate IsLineTerminator(c: char) {
    c == '\n' || c == '\r' || c == '\U{2028}' || c == '\U{2029}'
  }

  /** Characters other than `.`, `#` and `*` that would be regular-expression syntax. */
  predicate IsMetaChar(c: char) {
    c in "\\^$+?()[]{}|"
  }

  /**
   * The keys whose compiled source is read by JavaScript exactly as the token
   * sequence says: at most one `*` (a second one becomes a quantifier) and no
   * other metacharacter.
   */
  predicate SupportedKey(key: string) {
    && (forall i :: 0 <= i < |key| ==> !IsMetaChar(key[i]))
    && (forall i, j :: 0 <= i < j < |key| && key[i] == '*' ==> key[j] != '*')
  }

  /** `s.replace(c, replacement)` with a one-character string pattern. */
  function ReplaceFirst(s: string, c: char, replacement: string): string {
    if s == [] then s
    else if s[0] == c then replacement + s[1..]
    else [s[0]] + ReplaceFirst(s[1..], c, replacement)
  }

  /** The replacement lands at the first occurrence, and only there. */
  lemma {:induction false} ReplaceFirstAt(s: string, c: char, replacement: string, i: nat)
    requires i < |s| && s[i] == c && c !in s[..i]
    ensures ReplaceFirst(s, c, replacement) == s[..i] + replacement + s[i + 1..]
  {
    if i > 0 {
      assert s[0] in s[..i];
      var t := s[1..];
      assert t[..i - 1] == s[1..i];
      ReplaceFirstAt(t, c, replacement, i - 1);
      assert s[..i] == [s[0]] + t[..i - 1];
      assert s[i + 1..] == t[i..];
    }
  }

  /** A string without the character is left alone. */
  lemma {:induction false} ReplaceFirstAbsent(s: string, c: char, replacement: string)
    requires c !in s
    ensures ReplaceFirst(s, c, replacement) == s
  {
    if s != [] {
      assert forall x :: x in s[1..] ==> x in s;
      ReplaceFirstAbsent(s[1..], c, replacement);
      assert s == [s[0]] + s[1..];
    }
  }

  /** The regular-expression source that index.js:43 builds from a binding key. */
  function RegexSource(key: string): string {
    "^" + ReplaceFirst(ReplaceFirst(ReplaceFirst(key, '.', EscapedDot), '#', HashRegex), '*', StarRegex) + "$"
  }

  /**
   * Left-to-right translation; the flags say whether the first `.`, `#` or
   * `*` has already been replaced.
   */
  function Translate(key: string, dotDone: bool, hashDone: bool, starDone: bool): seq<Token> {
    if key == [] then []
    else
      var c, rest := key[0], key[1..];
      if c == '.' && !dotDone then [LitDot] + Translate(rest, true, hashDone, starDone)
      else if c == '.' then [AnyChar] + Translate(rest, dotDone, hashDone, starDone)
      else if c == '#' && !hashDone then [WordOrDotPlus] + Translate(rest, dotDone, true, starDone)
      else if c == '*' && !starDone then [WordPlus] + Translate(rest, dotDone, hashDone, true)
      else [Lit(c)] + Translate(rest, dotDone, hashDone, starDone)
  }

  /** The compiled matcher of a binding key (the `RegExp` of index.js:44). */
  function Compile(key: string): seq<Token> {
    Translate(key, false, false, false)
  }

  function TokenText(t: Token): string {
    match t
    case Lit(c) => [c]
    case LitDot => EscapedDot
    case AnyChar => "."
    case WordPlus => StarRegex
    case WordOrDotPlus => HashRegex
  }

  /** The regular-expression text of a token sequence. */
  function Render(ts: seq<Token>): string {
    if ts == [] then "" else TokenText(ts[0]) + Render(ts[1..])
  }

  /** One of the three replacements, or nothing once it has been done. */
  function Stage(s: string, done: bool, c: char, replacement: string): string {
    if done then s else ReplaceFirst(s, c, replacement)
  }

  lemma {:induction false} ReplaceFirstAfter(p: string, s: string, c: char, replacement: string)
    requires c !in p
    ensures ReplaceFirst(p + s, c, replacement) == p + ReplaceFirst(s, c, replacement)
  {
    if p != [] {
      assert (p + s)[0] == p[0] && (p + s)[1..] == p[1..] + s;
      ReplaceFirstAfter(p[1..], s, c, replacement);
    } else {
      assert p + s == s;
    }
  }

  lemma StageAfter(p: string, s: string, done: bool, c: char, replacement: string)
    requires done || c !in p
    ensures Stage(p + s, done, c, replacement) == p + Stage(s, done, c, replacement)
  {
    if !done { ReplaceFirstAfter(p, s, c, replacement); }
  }

  /** The three replacements of index.js:43, each skipped once done. */
  function Stages(key: string, dotDone: bool, hashDone: bool, starDone: bool): string {
    Stage(Stage(Stage(key, dotDone, '.', EscapedDot), hashDone, '#', HashRegex), starDone, '*', StarRegex)
  }

  /** A prefix without any of the three characters still to be replaced passes through all stages. */
  lemma StagesAfter(p: string, s: string, dotDone: bool, hashDone: bool, starDone: bool)
    requires dotDone || '.' !in p
    requires hashDone || '#' !in p
    requires starDone || '*' !in p
    ensures Stages(p + s, dotDone, hashDone, starDone) == p + Stages(s, dotDone, hashDone, starDone)
  {
    var a := Stage(s, dotDone, '.', EscapedDot);
    var b := Stage(a, hashDone, '#', HashRegex);
    StageAfter(p, s, dotDone, '.', EscapedDot);
    StageAfter(p, a, hashDone, '#', HashRegex);
    StageAfter(p, b, starDone, '*', StarRegex);
  }

  lemma {:induction false} TranslateRenders(key: string, dotDone: bool, hashDone: bool, starDone: bool)
    ensures Render(Translate(key, dotDone, hashDone, starDone)) == Stages(key, dotDone, hashDone, starDone)
  {
    if key != [] {
      var c, rest := key[0], key[1..];
      assert key == [c] + rest;
      if c == '.' && !dotDone {
        TranslateRenders(rest, true, hashDone, starDone);
        var a := Stage(rest, hashDone, '#', HashRegex);
        assert Stage(key, dotDone, '.', EscapedDot) == EscapedDot + rest;
        StageAfter(EscapedDot, rest, hashDone, '#', HashRegex);
        StageAfter(EscapedDot, a, starDone, '*', StarRegex);
      } else if c == '#' && !hashDone {
        TranslateRenders(rest, dotDone, true, starDone);
        var a := Stage(rest, dotDone, '.', EscapedDot);
        StageAfter([c], rest, dotDone, '.', EscapedDot);
        assert ([c] + a)[0] == c && ([c] + a)[1..] == a;
        assert Stage([c] + a, hashDone, '#', HashRegex) == HashRegex + a;
        StageAfter(HashRegex, a, starDone, '*', StarRegex);
      } else if c == '*' && !starDone {
        TranslateRenders(rest, dotDone, hashDone, true);
        var a := Stage(rest, dotDone, '.', EscapedDot);
        var b := Stage(a, hashDone, '#', HashRegex);
        StageAfter([c], rest, dotDone, '.', EscapedDot);
        StageAfter([c], a, hashDone, '#', HashRegex);
        assert ([c] + b)[0] == c && ([c] + b)[1..] == b;
        assert Stage([c] + b, starDone, '*', StarRegex) == StarRegex + b;
      } else {
        TranslateRenders(rest, dotDone, hashDone, starDone);
        assert TokenText(Translate(key, dotDone, hashDone, starDone)[0]) == [c];
        StagesAfter([c], rest, dotDone, hashDone, starDone);
      }
    }
  }

  /**
   * The compiled tokens are exactly the expression index.js:43 writes: the
   * source is `^`, the rendering of the tokens, and `$`.
   */
  lemma CompileIsRegexSource(key: string)
    ensures RegexSource(key) == "^" + Render(Compile(key)) + "$"
  {
    TranslateRenders(key, false, false, false);
  }

  /** The character class a token consumes one character of. */
  predicate Admits(t: Token, c: char) {
    match t
    case Lit(x) => c == x
    case LitDot => c == '.'
    case AnyChar => !IsLineTerminator(c)
    case WordPlus => IsWordChar(c)
    case WordOrDotPlus => IsWordChar(c) || c == '.'
  }

  /** Tokens that carry a `+` quantifier. */
  predicate Repeated(t: Token) {
    t.WordPlus? || t.WordOrDotPlus?
  }

  /** Whether the anchored expression `^ts$` matches all of `s` (`RegExp.prototype.test`). */
  function Matches(ts: seq<Token>, s: string): bool
    decreases |ts| + |s|
  {
    if ts == [] then s == []
    else
      && |s| > 0
      && Admits(ts[0], s[0])
      && (Matches(ts[1..], s[1..]) || (Repeated(ts[0]) && Matches(ts, s[1..])))
  }

  /** A `+` token alone matches exactly the non-empty runs of its class. */
  lemma {:induction false} RepeatedMatches(t: Token, s: string)
    requires Repeated(t)
    ensures Matches([t], s) <==> |s| > 0 && forall i :: 0 <= i < |s| ==> Admits(t, s[i])
  {
    if |s| > 0 {
      RepeatedMatches(t, s[1..]);
      assert [t][1..] == [];
      assert forall i :: 1 <= i < |s| ==> s[i] == s[1..][i - 1];
    }
  }

  /** A sequence of one-character tokens matches exactly the strings of its length, position by position. */
  lemma {:induction false} FixedMatches(ts: seq<Token>, s: string)
    requires forall i :: 0 <= i < |ts| ==> !Repeated(ts[i])
    ensures Matches(ts, s) <==> |s| == |ts| && forall i :: 0 <= i < |s| ==> Admits(ts[i], s[i])
  {
    if ts != [] && |s| > 0 {
      FixedMatches(ts[1..], s[1..]);
      assert forall i :: 1 <= i < |s| ==> s[i] == s[1..][i - 1];
      assert forall i :: 1 <= i < |ts| ==> ts[i] == ts[1..][i - 1];
    }
  }

  /**
   * One-character tokens followed by a single trailing `+` token: a prefix
   * that matches position by position and a non-empty tail in the token's class.
   */
  lemma {:induction false} TrailingRepeatMatches(ts: seq<Token>, t: Token, s: string)
    requires forall i :: 0 <= i < |ts| ==> !Repeated(ts[i])
    requires Repeated(t)
    ensures Matches(ts + [t], s) <==>
              && |s| > |ts|
              && (forall i :: 0 <= i < |ts| ==> Admits(ts[i], s[i]))
              && (forall i :: |ts| <= i < |s| ==> Admits(t, s[i]))
  {
    if ts == [] {
      assert ts + [t] == [t];
      RepeatedMatches(t, s);
    } else if |s| > 0 {
      assert (ts + [t])[0] == ts[0] && (ts + [t])[1..] == ts[1..] + [t];
      TrailingRepeatMatches(ts[1..], t, s[1..]);
      assert forall i :: 1 <= i < |s| ==> s[i] == s[1..][i - 1];
      assert forall i :: 1 <= i < |ts| ==> ts[i] == ts[1..][i - 1];
    }
  }

  /** A key without `.`, `#` or `*` compiles to its own characters... */
  lemma {:induction false} PlainKeyCompilesToItself(key: string, dotDone: bool, hashDone: bool, starDone: bool)
    requires '.' !in key && '#' !in key && '*' !in key
    ensures |Translate(key, dotDone, hashDone, starDone)| == |key|
    ensures forall i :: 0 <= i < |key| ==> Translate(key, dotDone, hashDone, starDone)[i] == Lit(key[i])
  {
    if key != [] {
      assert key[0] in key && forall c :: c in key[1..] ==> c in key;
      PlainKeyCompilesToItself(key[1..], dotDone, hashDone, starDone);
    }
  }

  /** ...so a supported key of that kind matches exactly itself. */
  lemma PlainKeyMatchesOnlyItself(key: string, s: string)
    requires SupportedKey(key)
    requires '.' !in key && '#' !in key && '*' !in key
    ensures Matches(Compile(key), s) <==> s == key
  {
    PlainKeyCompilesToItself(key, false, false, false);
    FixedMatches(Compile(key), s);
  }

  /** `a.b.*` matches one more word after `a.b.`, and nothing with a further dot. */
  lemma StarMatchesOneWord()
    ensures Compile("a.b.*") == [Lit('a'), LitDot, Lit('b'), AnyChar, WordPlus]
    ensures Matches(Compile("a.b.*"), "a.b.c")
    ensures !Matches(Compile("a.b.*"), "a.b.c.d")
  {
    var ts := [Lit('a'), LitDot, Lit('b'), AnyChar];
    assert Compile("a.b.*") == ts + [WordPlus];
    TrailingRepeatMatches(ts, WordPlus, "a.b.c");
    TrailingRepeatMatches(ts, WordPlus, "a.b.c.d");
    assert !Admits(WordPlus, "a.b.c.d"[5]);
  }

  /** `a.#` matches one or more further segments. */
  lemma HashMatchesSegments()
    ensures Compile("a.#") == [Lit('a'), LitDot, WordOrDotPlus]
    ensures Matches(Compile("a.#"), "a.b")
    ensures Matches(Compile("a.#"), "a.b.c.d")
    ensures !Matches(Compile("a.#"), "a.")
  {
    var ts := [Lit('a'), LitDot];
    assert Compile("a.#") == ts + [WordOrDotPlus];
    TrailingRepeatMatches(ts, WordOrDotPlus, "a.b");
    TrailingRepeatMatches(ts, WordOrDotPlus, "a.b.c.d");
    TrailingRepeatMatches(ts, WordOrDotPlus, "a.");
  }

  /** Only the first dot is escaped: the second dot of `a.b.c` is any character. */
  lemma SecondDotMatchesAnyChar()
    ensures Compile("a.b.c") == [Lit('a'), LitDot, Lit('b'), AnyChar, Lit('c')]
    ensures Matches(Compile("a.b.c"), "a.b.c")
    ensures Matches(Compile("a.b.c"), "a.bXc")
    ensures !Matches(Compile("a.b.c"), "aXb.c")
  {
    var ts := Compile("a.b.c");
    assert ts == [Lit('a'), LitDot, Lit('b'), AnyChar, Lit('c')];
    FixedMatches(ts, "a.b.c");
    FixedMatches(ts, "a.bXc");
    FixedMatches(ts, "aXb.c");
    assert !Admits(ts[1], "aXb.c"[1]);
  }
}
