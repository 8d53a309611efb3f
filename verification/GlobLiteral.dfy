/** The literal fast path and the hidden-name rule of `glob` (`src/glob.rs`). */
module GlobLiteral {
  import opened GlobPattern

  predicate IsMeta(token: Token) {
    !token.Literal?
  }

  predicate HasMeta(tokens: seq<Token>) {
    exists k :: 0 <= k < |tokens| && IsMeta(tokens[k])
  }

  lemma HasMetaCons(token: Token, tokens: seq<Token>)
    ensures HasMeta([token] + tokens) <==> IsMeta(token) || HasMeta(tokens)
  {
    var all := [token] + tokens;
    assert all[0] == token;
    if k :| 0 <= k < |tokens| && IsMeta(tokens[k]) {
      assert IsMeta(all[k + 1]);
    }
    if k :| 0 <= k < |all| && IsMeta(all[k]) {
      assert k > 0 ==> IsMeta(tokens[k - 1]);
    }
  }

  /** `segment_has_pattern_meta`: whether any token is not a literal. */
  method SegmentHasPatternMeta(segment: string, noEscape: bool) returns (r: bool)
    ensures r <==> HasMeta(Tokens(segment, 0, noEscape))
  {
    hide HasMeta;
    var index := 0;
    while index < |segment|
      invariant 0 <= index <= |segment|
      invariant HasMeta(Tokens(segment, 0, noEscape)) <==> HasMeta(Tokens(segment, index, noEscape))
    {
      var current := segment[index];
      if current == '*' {
        HasMetaCons(Star, Tokens(segment, index + 1, noEscape));
        return true;
      }
      ghost var token, after := FirstToken(segment, index, noEscape);
      HasMetaCons(token, Tokens(segment, after, noEscape));
      if current == '\\' && !noEscape && index + 1 < |segment| {
        index := index + 2;
        continue;
      }
      if current == '?' {
        return true;
      }
      if current == '[' {
        var bracket := BracketMatch(segment, index, '.', noEscape);
        if bracket.Some? {
          return true;
        }
      }
      index := index + 1;
    }
    NoMetaAtEnd(segment, noEscape);
    r := false;
  }

  lemma NoMetaAtEnd(p: string, noEscape: bool)
    ensures !HasMeta(Tokens(p, |p|, noEscape))
  {
  }

  /** The text of a segment with its escaping backslashes removed, from position `i` on. */
  function Unescaped(p: string, i: nat, noEscape: bool): string
    decreases |p| - i
  {
    if |p| <= i then []
    else if p[i] == '\\' && !noEscape && i + 1 < |p| then [p[i + 1]] + Unescaped(p, i + 2, noEscape)
    else [p[i]] + Unescaped(p, i + 1, noEscape)
  }

  /** `unescape_segment` */
  method UnescapeSegment(segmentPattern: string, noEscape: bool) returns (unescaped: string)
    ensures unescaped == Unescaped(segmentPattern, 0, noEscape)
  {
    if noEscape {
      UnescapedIsText(segmentPattern, 0);
      return segmentPattern;
    }
    hide Unescaped;
    unescaped := [];
    var index := 0;
    while index < |segmentPattern|
      invariant 0 <= index <= |segmentPattern|
      invariant unescaped + Unescaped(segmentPattern, index, noEscape) == Unescaped(segmentPattern, 0, noEscape)
    {
      UnescapedStep(segmentPattern, index, unescaped);
      if segmentPattern[index] == '\\' && index + 1 < |segmentPattern| {
        unescaped := unescaped + [segmentPattern[index + 1]];
        index := index + 2;
        continue;
      }
      unescaped := unescaped + [segmentPattern[index]];
      index := index + 1;
    }
    NothingUnescaped(segmentPattern);
  }

  /** One step of the loop, after the text already produced. */
  lemma UnescapedStep(p: string, i: nat, done: string)
    requires i < |p|
    ensures done + Unescaped(p, i, false)
         == if p[i] == '\\' && i + 1 < |p| then done + [p[i + 1]] + Unescaped(p, i + 2, false)
            else done + [p[i]] + Unescaped(p, i + 1, false)
  {
    if p[i] == '\\' && i + 1 < |p| {
      assert Unescaped(p, i, false) == [p[i + 1]] + Unescaped(p, i + 2, false);
    } else {
      assert Unescaped(p, i, false) == [p[i]] + Unescaped(p, i + 1, false);
    }
    hide Unescaped;
  }

  lemma NothingUnescaped(p: string)
    ensures Unescaped(p, |p|, false) == []
  {
  }

  lemma {:induction false} UnescapedIsText(p: string, i: nat)
    requires i <= |p|
    ensures Unescaped(p, i, true) == p[i..]
    decreases |p| - i
  {
    if i < |p| {
      UnescapedIsText(p, i + 1);
    }
  }

  function Literals(text: string): seq<Token> {
    if text == [] then [] else [Literal(text[0])] + Literals(text[1..])
  }

  lemma {:induction false} LiteralsMatchText(text: string, name: string)
    ensures Matches(Literals(text), name) <==> name == text
  {
    if text == [] {
    } else {
      assert Literals(text)[1..] == Literals(text[1..]);
      if name != [] {
        LiteralsMatchText(text[1..], name[1..]);
        assert name == [name[0]] + name[1..] && text == [text[0]] + text[1..];
      }
    }
  }

  /** Without metacharacters the tokens spell the unescaped text. */
  lemma {:induction false} LiteralTokens(p: string, i: nat, noEscape: bool)
    requires !HasMeta(Tokens(p, i, noEscape))
    ensures Tokens(p, i, noEscape) == Literals(Unescaped(p, i, noEscape))
    decreases |p| - i
  {
    hide HasMeta;
    if i < |p| {
      if p[i] == '*' {
        HasMetaCons(Star, Tokens(p, i + 1, noEscape));
      }
      var token, after := FirstToken(p, i, noEscape);
      HasMetaCons(token, Tokens(p, after, noEscape));
      LiteralTokens(p, after, noEscape);
      assert Unescaped(p, i, noEscape) == [token.c] + Unescaped(p, after, noEscape);
      assert Literals([token.c] + Unescaped(p, after, noEscape)) == [token] + Literals(Unescaped(p, after, noEscape));
    }
  }

  /** The fast path agrees with the matcher, in both escape modes, unclosed brackets and final backslashes included. */
  lemma FastPathAgrees(segment: string, name: string, noEscape: bool)
    requires !HasMeta(Tokens(segment, 0, noEscape))
    ensures Matches(Tokens(segment, 0, noEscape), name) <==> name == Unescaped(segment, 0, noEscape)
  {
    LiteralTokens(segment, 0, noEscape);
    LiteralsMatchText(Unescaped(segment, 0, noEscape), name);
  }

  // ---- Names that start with a dot ----

  /** The pattern's first token asks for a dot: the dot itself, or a non-negated bracket that holds it. */
  predicate AsksForDot(tokens: seq<Token>) {
    tokens != [] && match tokens[0]
      case Literal(c) => c == '.'
      case Class(negated, items) => !negated && Covers(items, '.')
      case _ => false
  }

  /** `should_match_hidden_name` */
  method ShouldMatchHiddenName(segmentPattern: string, noEscape: bool) returns (r: bool)
    ensures r <==> AsksForDot(Tokens(segmentPattern, 0, noEscape))
  {
    hide Covers;
    if |segmentPattern| == 0 {
      return false;
    }
    if segmentPattern[0] == '*' {
      assert Tokens(segmentPattern, 0, noEscape)[0] == Star;
      return false;
    }
    ghost var token, after := FirstToken(segmentPattern, 0, noEscape);
    if segmentPattern[0] == '.' {
      return true;
    }
    if segmentPattern[0] == '[' && !(|segmentPattern| > 1 && (segmentPattern[1] == '!' || segmentPattern[1] == '^')) {
      var bracket := BracketMatch(segmentPattern, 0, '.', noEscape);
      if bracket.Some? && bracket.value.0 {
        return true;
      }
    }
    if noEscape {
      return false;
    }
    r := |segmentPattern| >= 2 && segmentPattern[0] == '\\' && segmentPattern[1] == '.';
  }
}
