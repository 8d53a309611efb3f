/** Pattern matching inside one path segment (`src/glob.rs`), after section 2.13 of the POSIX.1-2017
    Shell Command Language. Bytes are characters; only equality and order of bytes matter. */
module GlobPattern {
  import opened Wrappers

  // ---- What a pattern means: a sequence of tokens ----

  /** The characters from `lo` to `hi`; a single one when they are equal, none when reversed. */
  datatype Item = Item(lo: char, hi: char)

  datatype Token = Star | AnyOne | Literal(c: char) | Class(negated: bool, items: seq<Item>)

  predicate Covers(items: seq<Item>, c: char) {
    exists i :: 0 <= i < |items| && items[i].lo <= c <= items[i].hi
  }

  predicate Accepts(token: Token, c: char) {
    match token
    case Star => true
    case AnyOne => true
    case Literal(d) => c == d
    case Class(negated, items) => Covers(items, c) != negated
  }

  /** Matching by consuming the name from the left. */
  predicate Matches(tokens: seq<Token>, name: string)
    decreases |tokens|
  {
    if tokens == [] then name == []
    else if tokens[0] == Star then exists k :: 0 <= k <= |name| && Matches(tokens[1..], name[k..])
    else name != [] && Accepts(tokens[0], name[0]) && Matches(tokens[1..], name[1..])
  }

  function Concat(parts: seq<string>): string {
    if parts == [] then [] else parts[0] + Concat(parts[1..])
  }

  /** A star takes any text, every other token exactly one character it accepts. */
  predicate Fits(token: Token, part: string) {
    token == Star || (|part| == 1 && Accepts(token, part[0]))
  }

  predicate Splits(tokens: seq<Token>, parts: seq<string>, name: string) {
    && |parts| == |tokens| && Concat(parts) == name
    && forall i :: 0 <= i < |tokens| ==> Fits(tokens[i], parts[i])
  }

  lemma {:induction false} MatchGivesSplit(tokens: seq<Token>, name: string) returns (parts: seq<string>)
    requires Matches(tokens, name)
    ensures Splits(tokens, parts, name)
    decreases |tokens|
  {
    if tokens == [] {
      return [];
    }
    var k := 1;
    if tokens[0] == Star {
      k :| 0 <= k <= |name| && Matches(tokens[1..], name[k..]);
    }
    var rest := MatchGivesSplit(tokens[1..], name[k..]);
    parts := [name[..k]] + rest;
    assert parts[1..] == rest;
  }

  lemma {:induction false} SplitGivesMatch(tokens: seq<Token>, parts: seq<string>, name: string)
    requires Splits(tokens, parts, name)
    ensures Matches(tokens, name)
    decreases |tokens|
  {
    if tokens != [] {
      var k := |parts[0]|;
      assert Fits(tokens[0], parts[0]);
      assert name[k..] == Concat(parts[1..]);
      SplitGivesMatch(tokens[1..], parts[1..], name[k..]);
    }
  }

  /** A name matches exactly when it can be cut into one part for each token. */
  lemma MatchesIffSplits(tokens: seq<Token>, name: string)
    ensures Matches(tokens, name) <==> exists parts :: Splits(tokens, parts, name)
  {
    if Matches(tokens, name) {
      var parts := MatchGivesSplit(tokens, name);
    }
    if parts :| Splits(tokens, parts, name) {
      SplitGivesMatch(tokens, parts, name);
    }
  }

  // ---- Bracket expressions ----

  /** `next` is the position after the closing bracket. */
  datatype Bracket = Bracket(negated: bool, items: seq<Item>, next: nat)

  function AddItem(item: Item, rest: Option<(seq<Item>, nat)>): Option<(seq<Item>, nat)> {
    match rest
    case None => None
    case Some((items, next)) => Some(([item] + items, next))
  }

  /** The item at position `i` and how many characters it takes. */
  function NextItem(p: string, i: nat, noEscape: bool): (r: (Item, nat))
    requires i < |p|
    ensures 1 <= r.1 && i + r.1 <= |p|
  {
    var escaped := p[i] == '\\' && !noEscape && i + 1 < |p|;
    if !escaped && i + 2 < |p| && p[i + 1] == '-' && p[i + 2] != ']' then
      if p[i + 2] == '\\' && !noEscape && i + 3 < |p| then (Item(p[i], p[i + 3]), 4) else (Item(p[i], p[i + 2]), 3)
    else if escaped then (Item(p[i + 1], p[i + 1]), 2)
    else (Item(p[i], p[i]), 1)
  }

  /** The items from position `i` to the closing bracket, which needs an item before it. */
  function ParseItems(p: string, i: nat, noEscape: bool, hasAny: bool): (r: Option<(seq<Item>, nat)>)
    ensures r.Some? ==> i < r.value.1 <= |p|
    decreases |p| - i
  {
    if |p| <= i then None
    else if p[i] == ']' && hasAny then Some(([], i + 1))
    else
      var (item, consumed) := NextItem(p, i, noEscape);
      AddItem(item, ParseItems(p, i + consumed, noEscape, true))
  }

  predicate StartsNegated(p: string, i: nat) {
    i + 1 < |p| && (p[i + 1] == '!' || p[i + 1] == '^')
  }

  /** The bracket expression opened at `i`; `None` when it is not closed. */
  function ParseBracket(p: string, i: nat, noEscape: bool): (r: Option<Bracket>)
    ensures r.Some? ==> i < r.value.next <= |p|
  {
    var negated := StartsNegated(p, i);
    var first := if negated then i + 2 else i + 1;
    var items :=
      if first < |p| && p[first] == ']' then AddItem(Item(']', ']'), ParseItems(p, first + 1, noEscape, true))
      else ParseItems(p, first, noEscape, false);
    match items
    case None => None
    case Some((its, next)) => Some(Bracket(negated, its, next))
  }

  lemma CoversCons(item: Item, items: seq<Item>, c: char)
    ensures Covers([item] + items, c) <==> item.lo <= c <= item.hi || Covers(items, c)
  {
    var all := [item] + items;
    assert item.lo <= c <= item.hi ==> all[0].lo <= c <= all[0].hi;
    forall i | 0 <= i < |items| ensures all[i + 1] == items[i] {}
    if Covers(items, c) {
      var i :| 0 <= i < |items| && items[i].lo <= c <= items[i].hi;
      assert all[i + 1].lo <= c <= all[i + 1].hi;
    }
  }

  /** What the scan has seen (`matched`) and what is left decide the whole item list. */
  predicate ScanState(all: Option<(seq<Item>, nat)>, rest: Option<(seq<Item>, nat)>,
                      already: bool, matched: bool, c: char)
  {
    match rest
    case None => all.None?
    case Some((items, next)) =>
      && all.Some? && all.value.1 == next
      && (Covers(all.value.0, c) || already <==> matched || Covers(items, c))
  }

  lemma ScanStep(all: Option<(seq<Item>, nat)>, item: Item, rest: Option<(seq<Item>, nat)>,
                 already: bool, matched: bool, c: char)
    requires ScanState(all, AddItem(item, rest), already, matched, c)
    ensures ScanState(all, rest, already, matched || item.lo <= c <= item.hi, c)
  {
    if rest.Some? {
      CoversCons(item, rest.value.0, c);
    }
  }

  /** One item at `index`: a literal, an escaped literal or a range. */
  method ReadItem(pattern: string, index: nat, noEscape: bool) returns (literal: char, rangeEnd: char, consumed: nat)
    requires index < |pattern|
    ensures (Item(literal, rangeEnd), consumed) == NextItem(pattern, index, noEscape)
  {
    var literalEscaped := pattern[index] == '\\' && !noEscape && index + 1 < |pattern|;
    literal := if literalEscaped then pattern[index + 1] else pattern[index];
    rangeEnd, consumed := literal, if literalEscaped then 2 else 1;
    if !literalEscaped && index + 1 < |pattern| && pattern[index + 1] == '-'
      && index + 2 < |pattern| && pattern[index + 2] != ']'
    {
      if pattern[index + 2] == '\\' && !noEscape && index + 3 < |pattern| {
        rangeEnd, consumed := pattern[index + 3], 4;
      } else {
        rangeEnd, consumed := pattern[index + 2], 3;
      }
    }
  }

  /** The scan loop of `bracket_match` from `start` on. */
  method ScanItems(pattern: string, start: nat, hasAny: bool, already: bool, candidate: char, noEscape: bool)
    returns (matched: bool, next: Option<nat>)
    requires start <= |pattern|
    ensures match ParseItems(pattern, start, noEscape, hasAny)
      case None => next.None?
      case Some((items, end)) => next == Some(end) && (matched <==> already || Covers(items, candidate))
  {
    var index, hasAnyItem := start, hasAny;
    matched := already;
    ghost var all := ParseItems(pattern, start, noEscape, hasAny);
    while index < |pattern|
      invariant index <= |pattern|
      invariant ScanState(all, ParseItems(pattern, index, noEscape, hasAnyItem), already, matched, candidate)
    {
      if pattern[index] == ']' && hasAnyItem {
        return matched, Some(index + 1);
      }
      var literal, rangeEnd, consumed := ReadItem(pattern, index, noEscape);
      ScanStep(all, Item(literal, rangeEnd), ParseItems(pattern, index + consumed, noEscape, true),
               already, matched, candidate);
      if literal <= rangeEnd && literal <= candidate <= rangeEnd {
        matched := true;
      }
      hasAnyItem := true;
      index := index + consumed;
    }
    next := None;
  }

  /** `bracket_match`: the scan runs for one candidate character, yet whether the bracket closes and
      where depends on the pattern alone. */
  method BracketMatch(pattern: string, bracketIndex: nat, candidate: char, noEscape: bool)
    returns (r: Option<(bool, nat)>)
    requires bracketIndex < |pattern|
    ensures match ParseBracket(pattern, bracketIndex, noEscape)
      case None => r.None?
      case Some(b) => r == Some((Accepts(Class(b.negated, b.items), candidate), b.next))
  {
    hide Covers, ParseItems;
    var index := bracketIndex + 1;
    if index >= |pattern| {
      NoItemsAtEnd(pattern, noEscape);
      return None;
    }
    var invert := false;
    if pattern[index] == '!' || pattern[index] == '^' {
      invert := true;
      index := index + 1;
    }
    var matched, hasAnyItem := false, false;
    if index < |pattern| && pattern[index] == ']' {
      hasAnyItem := true;
      matched := candidate == ']';
      index := index + 1;
      ghost var rest := ParseItems(pattern, index, noEscape, true);
      if rest.Some? {
        CoversCons(Item(']', ']'), rest.value.0, candidate);
      }
    }
    var next: Option<nat>;
    matched, next := ScanItems(pattern, index, hasAnyItem, matched, candidate, noEscape);
    if next.None? {
      return None;
    }
    r := Some((if invert then !matched else matched, next.value));
  }

  lemma NoItemsAtEnd(p: string, noEscape: bool)
    ensures ParseItems(p, |p|, noEscape, false).None? && ParseItems(p, |p| + 1, noEscape, false).None?
  {
  }

  // ---- Tokens of a pattern ----

  /** The tokens of the pattern from position `i` on; an unclosed bracket and a final backslash stand for themselves. */
  function Tokens(p: string, i: nat, noEscape: bool): seq<Token>
    decreases |p| - i
  {
    if |p| <= i then []
    else if p[i] == '*' then [Star] + Tokens(p, i + 1, noEscape)
    else if p[i] == '?' then [AnyOne] + Tokens(p, i + 1, noEscape)
    else if p[i] == '[' then
      match ParseBracket(p, i, noEscape)
      case None => [Literal('[')] + Tokens(p, i + 1, noEscape)
      case Some(b) => [Class(b.negated, b.items)] + Tokens(p, b.next, noEscape)
    else if p[i] == '\\' && !noEscape && i + 1 < |p| then [Literal(p[i + 1])] + Tokens(p, i + 2, noEscape)
    else [Literal(p[i])] + Tokens(p, i + 1, noEscape)
  }

  lemma MatchesCons(token: Token, tokens: seq<Token>, name: string)
    ensures token != Star ==>
      (Matches([token] + tokens, name) <==> name != [] && Accepts(token, name[0]) && Matches(tokens, name[1..]))
    ensures token == Star ==>
      (Matches([token] + tokens, name) <==> exists k :: 0 <= k <= |name| && Matches(tokens, name[k..]))
  {
    assert ([token] + tokens)[1..] == tokens;
  }

  /** A second star adds nothing. */
  lemma StarTwice(tokens: seq<Token>, name: string)
    ensures Matches([Star, Star] + tokens, name) <==> Matches([Star] + tokens, name)
  {
    var one := [Star] + tokens;
    assert [Star, Star] + tokens == [Star] + one;
    MatchesCons(Star, one, name);
    MatchesCons(Star, tokens, name);
    if k :| 0 <= k <= |name| && Matches(one, name[k..]) {
      MatchesCons(Star, tokens, name[k..]);
      var j :| 0 <= j <= |name[k..]| && Matches(tokens, name[k..][j..]);
      assert name[k..][j..] == name[k + j..];
    }
    if Matches(one, name) {
      assert name[0..] == name;
    }
  }

  /** A non-star token at `ci`, read off the suffixes. */
  lemma ConsumeOne(token: Token, tokens: seq<Token>, name: string, ci: nat)
    requires token != Star && ci < |name|
    ensures Matches([token] + tokens, name[ci..]) <==> Accepts(token, name[ci]) && Matches(tokens, name[ci + 1..])
  {
    MatchesCons(token, tokens, name[ci..]);
    assert name[ci..][1..] == name[ci + 1..];
  }

  /** The tokens of a run of stars are stars. */
  lemma {:induction false} StarRun(p: string, start: nat, end: nat, noEscape: bool, name: string)
    requires start < end <= |p| && forall k :: start <= k < end ==> p[k] == '*'
    ensures Matches(Tokens(p, start, noEscape), name) <==> Matches([Star] + Tokens(p, end, noEscape), name)
    decreases end - start
  {
    if start + 1 < end {
      StarRun(p, start + 1, end, noEscape, name);
      assert p[start + 1] == '*';
      var rest := Tokens(p, start + 2, noEscape);
      assert Tokens(p, start, noEscape) == [Star] + ([Star] + rest) == [Star, Star] + rest;
      hide Matches;
      StarTwice(rest, name);
    }
  }

  /** `pattern_matches_from`, with its only recursion at a star. */
  method PatternMatchesFrom(pattern: string, patternStart: nat, candidate: string, candidateStart: nat, noEscape: bool)
    returns (r: bool)
    requires patternStart <= |pattern| && candidateStart <= |candidate|
    ensures r <==> Matches(Tokens(pattern, patternStart, noEscape), candidate[candidateStart..])
    decreases |pattern| - patternStart
  {
    hide Matches, Tokens, Accepts;
    var patternIndex, candidateIndex := patternStart, candidateStart;
    while patternIndex < |pattern|
      invariant patternStart <= patternIndex <= |pattern| && 0 <= candidateIndex <= |candidate|
      invariant Matches(Tokens(pattern, patternStart, noEscape), candidate[candidateStart..])
           <==> Matches(Tokens(pattern, patternIndex, noEscape), candidate[candidateIndex..])
    {
      if pattern[patternIndex] == '*' {
        r := MatchStar(pattern, patternIndex, candidate, candidateIndex, noEscape);
        return;
      }
      var accepted, next := MatchOne(pattern, patternIndex, candidate, candidateIndex, noEscape);
      if !accepted {
        return false;
      }
      patternIndex := next;
      candidateIndex := candidateIndex + 1;
    }
    r := candidateIndex == |candidate|;
    MatchesNothing(pattern, candidate, candidateIndex, noEscape);
  }

  lemma MatchesNothing(p: string, name: string, ci: nat, noEscape: bool)
    requires ci <= |name|
    ensures Matches(Tokens(p, |p|, noEscape), name[ci..]) <==> ci == |name|
  {
  }

  /** The star case: skip the run of stars, then try every split of the rest of the candidate. */
  method MatchStar(pattern: string, start: nat, candidate: string, candidateIndex: nat, noEscape: bool)
    returns (r: bool)
    requires start < |pattern| && pattern[start] == '*' && candidateIndex <= |candidate|
    ensures r <==> Matches(Tokens(pattern, start, noEscape), candidate[candidateIndex..])
    decreases |pattern| - start, 0
  {
    hide Matches, Tokens;
    var patternIndex := start;
    while patternIndex < |pattern| && pattern[patternIndex] == '*'
      invariant start <= patternIndex <= |pattern|
      invariant forall k :: start <= k < patternIndex ==> pattern[k] == '*'
    {
      patternIndex := patternIndex + 1;
    }
    ghost var name := candidate[candidateIndex..];
    ghost var rest := Tokens(pattern, patternIndex, noEscape);
    StarRun(pattern, start, patternIndex, noEscape, name);
    MatchesCons(Star, rest, name);
    if patternIndex == |pattern| {
      MatchesNothing(pattern, name, |name|, noEscape);
      return true;
    }
    var scanIndex := candidateIndex;
    while scanIndex <= |candidate|
      invariant candidateIndex <= scanIndex <= |candidate| + 1
      invariant forall j :: 0 <= j < scanIndex - candidateIndex ==> !Matches(rest, name[j..])
    {
      assert candidate[scanIndex..] == name[scanIndex - candidateIndex..];
      var found := PatternMatchesFrom(pattern, patternIndex, candidate, scanIndex, noEscape);
      if found {
        return true;
      }
      scanIndex := scanIndex + 1;
    }
    r := false;
  }

  /** Every other token: one candidate character, and where the pattern goes on. */
  method MatchOne(pattern: string, patternIndex: nat, candidate: string, candidateIndex: nat, noEscape: bool)
    returns (accepted: bool, next: nat)
    requires patternIndex < |pattern| && pattern[patternIndex] != '*' && candidateIndex <= |candidate|
    ensures accepted ==> candidateIndex < |candidate| && patternIndex < next <= |pattern|
    ensures Matches(Tokens(pattern, patternIndex, noEscape), candidate[candidateIndex..])
       <==> accepted && Matches(Tokens(pattern, next, noEscape), candidate[candidateIndex + 1..])
  {
    ghost var token, after := FirstToken(pattern, patternIndex, noEscape);
    hide Matches, Tokens, Covers;
    if candidateIndex >= |candidate| {
      MatchesCons(token, Tokens(pattern, after, noEscape), candidate[candidateIndex..]);
      return false, patternIndex;
    }
    ConsumeOne(token, Tokens(pattern, after, noEscape), candidate, candidateIndex);
    var c := candidate[candidateIndex];
    var current := pattern[patternIndex];
    if current == '?' {
      return true, patternIndex + 1;
    }
    if current == '[' {
      var bracket := BracketMatch(pattern, patternIndex, c, noEscape);
      match bracket {
        case None => return c == '[', patternIndex + 1;
        case Some((matched, nextIndex)) => return matched, nextIndex;
      }
    }
    if current == '\\' && !noEscape {
      if patternIndex + 1 >= |pattern| {
        return c == '\\', patternIndex + 1;
      }
      return c == pattern[patternIndex + 1], patternIndex + 2;
    }
    return c == current, patternIndex + 1;
  }

  /** The first token at a position that holds no star, and the position after it. */
  lemma FirstToken(p: string, i: nat, noEscape: bool) returns (token: Token, after: nat)
    requires i < |p| && p[i] != '*'
    ensures Tokens(p, i, noEscape) == [token] + Tokens(p, after, noEscape) && token != Star && i < after <= |p|
    ensures p[i] == '?' ==> token == AnyOne && after == i + 1
    ensures p[i] == '[' ==> match ParseBracket(p, i, noEscape)
      case None => token == Literal('[') && after == i + 1
      case Some(b) => token == Class(b.negated, b.items) && after == b.next
    ensures p[i] == '\\' && !noEscape && i + 1 < |p| ==> token == Literal(p[i + 1]) && after == i + 2
    ensures p[i] !in "?[\\" || (p[i] == '\\' && (noEscape || i + 1 == |p|)) ==> token == Literal(p[i]) && after == i + 1
  {
    if p[i] == '?' {
      return AnyOne, i + 1;
    }
    if p[i] == '[' {
      match ParseBracket(p, i, noEscape) {
        case None => return Literal('['), i + 1;
        case Some(b) => return Class(b.negated, b.items), b.next;
      }
    }
    if p[i] == '\\' && !noEscape && i + 1 < |p| {
      return Literal(p[i + 1]), i + 2;
    }
    return Literal(p[i]), i + 1;
  }

  /** `pattern_matches`: the token sequence of the pattern can be split over the whole name. */
  method PatternMatches(segmentPattern: string, candidateName: string, noEscape: bool) returns (r: bool)
    ensures r <==> Matches(Tokens(segmentPattern, 0, noEscape), candidateName)
    ensures r <==> exists parts :: Splits(Tokens(segmentPattern, 0, noEscape), parts, candidateName)
  {
    r := PatternMatchesFrom(segmentPattern, 0, candidateName, 0, noEscape);
    assert candidateName[0..] == candidateName;
    MatchesIffSplits(Tokens(segmentPattern, 0, noEscape), candidateName);
  }
}
