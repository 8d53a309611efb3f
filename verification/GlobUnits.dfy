/** What the split segments of a glob pattern mean, in terms of the escapes the caller wrote (`src/glob.rs`). */
module GlobUnits {
  import opened Wrappers
  import opened GlobPattern
  import opened GlobPath

  // ---- Units of the split parts ----

  function Seps(n: nat): (s: seq<Unit>)
    ensures |s| == n && forall i :: 0 <= i < n ==> s[i] == Sep
  {
    seq(n, _ => Sep)
  }

  function JoinedUnits(segments: seq<string>, before: seq<nat>, n: nat): seq<Unit>
    requires n <= |segments| && n <= |before|
  {
    if n == 0 then [] else JoinedUnits(segments, before, n - 1) + Seps(before[n - 1]) + SplitUnits(segments[n - 1])
  }

  /** Each segment decoded on its own, between its separators. */
  function AssembledUnits(x: Parsed): seq<Unit>
    requires |x.before| == |x.segments|
  {
    Seps(x.leading) + JoinedUnits(x.segments, x.before, |x.segments|) + Seps(x.trailing)
  }

  /** A separator always ends the text before it. */
  lemma {:induction false} UnitsConcat(a: string, b: string)
    requires b == [] || b[0] == '/' || a == [] || a[|a| - 1] == '/'
    ensures SplitUnits(a + b) == SplitUnits(a) + SplitUnits(b)
    decreases |a|
  {
    if a == [] {
      assert a + b == b;
    } else {
      var step := UnitLength(a);
      UnitsUnfold(a);
      UnitsUnfold(a + b);
      UnitsHead(a, b);
      hide SplitUnits, UnitLength, HeadUnit;
      assert (a + b)[step..] == a[step..] + b;
      UnitsConcat(a[step..], b);
      ConsConcat(HeadUnit(a), SplitUnits(a[step..]), SplitUnits(b));
    }
  }

  lemma ConsConcat(u: Unit, v: seq<Unit>, w: seq<Unit>)
    ensures [u] + v + w == [u] + (v + w)
  {
  }

  lemma UnitsUnfold(a: string)
    requires a != []
    ensures SplitUnits(a) == [HeadUnit(a)] + SplitUnits(a[UnitLength(a)..])
  {
  }

  lemma UnitsHead(a: string, b: string)
    requires a != [] && (b == [] || b[0] == '/' || a[|a| - 1] == '/')
    ensures UnitLength(a + b) == UnitLength(a) && HeadUnit(a + b) == HeadUnit(a)
  {
    assert (a + b)[0] == a[0] && (|a| > 1 ==> (a + b)[1] == a[1]);
    assert |a| == 1 && b != [] ==> (a + b)[1] == b[0];
  }

  lemma {:induction false} UnitsOfSlashes(n: nat)
    ensures SplitUnits(Slashes(n)) == Seps(n)
  {
    if n > 0 {
      assert Slashes(n)[1..] == Slashes(n - 1);
      UnitsOfSlashes(n - 1);
      assert Seps(n) == [Sep] + Seps(n - 1);
    }
  }

  /** Separators between two texts. */
  lemma UnitsAround(a: string, n: nat, b: string)
    requires n > 0 || a == [] || b == [] || a[|a| - 1] == '/'
    ensures SplitUnits(a + Slashes(n) + b) == SplitUnits(a) + Seps(n) + SplitUnits(b)
  {
    UnitsOfSlashes(n);
    if n > 0 {
      UnitsConcat(a, Slashes(n));
      UnitsConcat(a + Slashes(n), b);
    } else {
      assert a + Slashes(0) == a && SplitUnits(a) + Seps(0) == SplitUnits(a);
      UnitsConcat(a, b);
    }
  }

  lemma {:induction false} PrefixUnits(x: Parsed, n: nat)
    requires WellFormed(x) && n <= |x.segments|
    ensures SplitUnits(Slashes(x.leading) + Joined(x.segments, x.before, n))
         == Seps(x.leading) + JoinedUnits(x.segments, x.before, n)
  {
    if n == 0 {
      UnitsOfSlashes(x.leading);
      assert Slashes(x.leading) + [] == Slashes(x.leading) && Seps(x.leading) + [] == Seps(x.leading);
    } else {
      PrefixUnits(x, n - 1);
      PrefixStep(x, n);
    }
  }

  lemma PrefixStep(x: Parsed, n: nat)
    requires WellFormed(x) && 0 < n <= |x.segments|
    requires SplitUnits(Slashes(x.leading) + Joined(x.segments, x.before, n - 1))
          == Seps(x.leading) + JoinedUnits(x.segments, x.before, n - 1)
    ensures SplitUnits(Slashes(x.leading) + Joined(x.segments, x.before, n))
         == Seps(x.leading) + JoinedUnits(x.segments, x.before, n)
  {
    var p := Slashes(x.leading) + Joined(x.segments, x.before, n - 1);
    var b, s := x.before[n - 1], x.segments[n - 1];
    assert b == 0 ==> n == 1 && p == Slashes(x.leading);
    assert Slashes(x.leading) + Joined(x.segments, x.before, n) == p + Slashes(b) + s;
    assert Seps(x.leading) + JoinedUnits(x.segments, x.before, n)
        == Seps(x.leading) + JoinedUnits(x.segments, x.before, n - 1) + Seps(b) + SplitUnits(s);
    hide SplitUnits, JoinedUnits, Joined;
    UnitsAround(p, b, s);
  }

  /** Decoding segment by segment is decoding the whole text. */
  lemma SegmentsDecode(x: Parsed)
    requires WellFormed(x)
    ensures SplitUnits(Assemble(x)) == AssembledUnits(x)
  {
    PrefixUnits(x, |x.segments|);
    var p := Slashes(x.leading) + Joined(x.segments, x.before, |x.segments|);
    assert Assemble(x) == p + Slashes(x.trailing) + [];
    hide SplitUnits, Joined, JoinedUnits;
    UnitsAround(p, x.trailing, []);
    assert SplitUnits([]) == [] by { NoUnits(); }
  }

  lemma NoUnits()
    ensures SplitUnits([]) == []
  {
  }

  /** The separators and the decoded segments that `glob` works with are the ones the caller wrote. */
  lemma NormalizedPathMeaning(pattern: string, x: Parsed)
    requires WellFormed(x) && Assemble(x) == Normalized(pattern)
    ensures AssembledUnits(x) == PathUnits(pattern)
  {
    SegmentsDecode(x);
    NormalizeKeepsMeaning(pattern);
  }

  // ---- Matching depends on the units alone ----

  function CharOf(u: Unit): char {
    if u == Sep then '/' else u.c
  }

  function UnitItems(u: seq<Unit>, hasAny: bool): (r: Option<(seq<Item>, seq<Unit>)>)
    ensures r.Some? ==> |r.value.1| < |u|
  {
    if u == [] then None
    else if u[0] == Raw(']') && hasAny then Some(([], u[1..]))
    else if u[0].Raw? && |u| > 2 && u[1] == Raw('-') && u[2] != Raw(']') then
      ConsItem(Item(CharOf(u[0]), CharOf(u[2])), UnitItems(u[3..], true))
    else ConsItem(Item(CharOf(u[0]), CharOf(u[0])), UnitItems(u[1..], true))
  }

  function ConsItem(item: Item, rest: Option<(seq<Item>, seq<Unit>)>): Option<(seq<Item>, seq<Unit>)> {
    match rest
    case None => None
    case Some((items, after)) => Some(([item] + items, after))
  }

  /** The class after an opening bracket, and the units after it. */
  function UnitBracket(u: seq<Unit>): (r: Option<(Token, seq<Unit>)>)
    ensures r.Some? ==> |r.value.1| < |u|
  {
    var negated := u != [] && (u[0] == Raw('!') || u[0] == Raw('^'));
    var v := if negated then u[1..] else u;
    var items :=
      if v != [] && v[0] == Raw(']') then ConsItem(Item(']', ']'), UnitItems(v[1..], true))
      else UnitItems(v, false);
    match items
    case None => None
    case Some((its, after)) => Some((Class(negated, its), after))
  }

  /** The unit at a position of a slash-free segment, and where it ends. */
  function UnitOf(p: string, i: nat): Unit
    requires i < |p|
  {
    if p[i] != '\\' then Raw(p[i]) else if i + 1 < |p| then Esc(p[i + 1]) else Esc('\\')
  }

  function UnitEnd(p: string, i: nat): (end: nat)
    requires i < |p|
    ensures i < end <= |p|
  {
    if p[i] == '\\' && i + 1 < |p| then i + 2 else i + 1
  }

  lemma UnitAt(p: string, i: nat)
    requires i < |p| && '/' !in p
    ensures SplitUnits(p[i..]) == [UnitOf(p, i)] + SplitUnits(p[UnitEnd(p, i)..])
    ensures SplitUnits(p[i..])[1..] == SplitUnits(p[UnitEnd(p, i)..])
  {
    assert p[i..][1..] == p[i + 1..];
    assert i + 1 < |p| ==> p[i..][1] == p[i + 1] && p[i + 1] != '/' && p[i..][2..] == p[i + 2..];
    assert SplitUnits(p[i..]) == [HeadUnit(p[i..])] + SplitUnits(p[i..][UnitLength(p[i..])..]);
  }

  lemma UnitsAtEnd(p: string)
    ensures SplitUnits(p[|p|..]) == []
  {
    assert p[|p|..] == [];
  }

  function UnitTokens(u: seq<Unit>): seq<Token>
    decreases |u|
  {
    if u == [] then []
    else if u[0] == Raw('*') then [Star] + UnitTokens(u[1..])
    else if u[0] == Raw('?') then [AnyOne] + UnitTokens(u[1..])
    else if u[0] == Raw('[') then
      match UnitBracket(u[1..])
      case None => [Literal('[')] + UnitTokens(u[1..])
      case Some((token, after)) => [token] + UnitTokens(after)
    else [Literal(CharOf(u[0]))] + UnitTokens(u[1..])
  }

  /** Items and rest, read off the text, are those read off its units. */
  predicate SameItems(p: string, items: Option<(seq<Item>, nat)>, units: Option<(seq<Item>, seq<Unit>)>) {
    match items
    case None => units.None?
    case Some((its, next)) => next <= |p| && units == Some((its, SplitUnits(p[next..])))
  }

  /** What follows a unit. */
  lemma UnitsAfter(p: string, i: nat)
    requires i <= |p| && '/' !in p
    ensures i == |p| ==> SplitUnits(p[i..]) == []
    ensures i < |p| ==>
      var u := SplitUnits(p[i..]);
      u != [] && u[0] == UnitOf(p, i) && u[1..] == SplitUnits(p[UnitEnd(p, i)..])
  {
    if i == |p| {
      UnitsAtEnd(p);
    } else {
      UnitAt(p, i);
    }
  }

  /** A range in the text is a range in the units. */
  lemma RangeUnits(p: string, i: nat)
    requires i < |p| && '/' !in p
    ensures var u := SplitUnits(p[i..]);
      var range := p[i] != '\\' && i + 2 < |p| && p[i + 1] == '-' && p[i + 2] != ']';
      && (range <==> u[0].Raw? && |u| > 2 && u[1] == Raw('-') && u[2] != Raw(']'))
      && (range ==> u[2] == UnitOf(p, i + 2) && u[3..] == SplitUnits(p[UnitEnd(p, i + 2)..]))
  {
    hide SplitUnits;
    UnitsAfter(p, i);
    UnitsAfter(p, UnitEnd(p, i));
    var u := SplitUnits(p[i..]);
    if UnitEnd(p, i) < |p| {
      UnitsAfter(p, UnitEnd(p, UnitEnd(p, i)));
      assert u[1..][1..] == u[2..];
      assert u[2..] != [] ==> u[2..][1..] == u[3..];
    }
  }

  /** One item of a bracket expression takes the same units. */
  lemma ItemUnits(p: string, i: nat, hasAny: bool)
    requires i < |p| && '/' !in p && !(p[i] == ']' && hasAny)
    ensures var (item, consumed) := NextItem(p, i, false);
      UnitItems(SplitUnits(p[i..]), hasAny) == ConsItem(item, UnitItems(SplitUnits(p[i + consumed..]), true))
  {
    hide SplitUnits, ConsItem;
    UnitsAfter(p, i);
    RangeUnits(p, i);
    var u := SplitUnits(p[i..]);
    assert u[0] != Raw(']') || !hasAny;
  }

  lemma SameItemsCons(p: string, item: Item, items: Option<(seq<Item>, nat)>, units: Option<(seq<Item>, seq<Unit>)>)
    requires SameItems(p, items, units)
    ensures SameItems(p, AddItem(item, items), ConsItem(item, units))
  {
  }

  lemma ClosingUnits(p: string, i: nat, hasAny: bool)
    requires i <= |p| && '/' !in p && (i == |p| || (p[i] == ']' && hasAny))
    ensures SameItems(p, ParseItems(p, i, false, hasAny), UnitItems(SplitUnits(p[i..]), hasAny))
  {
    hide SplitUnits;
    UnitsAfter(p, i);
  }

  lemma {:induction false} ItemsFromUnits(p: string, i: nat, hasAny: bool)
    requires i <= |p| && '/' !in p
    ensures SameItems(p, ParseItems(p, i, false, hasAny), UnitItems(SplitUnits(p[i..]), hasAny))
    decreases |p| - i
  {
    hide SplitUnits, UnitItems, NextItem, SameItems, AddItem, ConsItem;
    if i == |p| || (p[i] == ']' && hasAny) {
      ClosingUnits(p, i, hasAny);
    } else {
      ItemUnits(p, i, hasAny);
      var (item, consumed) := NextItem(p, i, false);
      ItemsFromUnits(p, i + consumed, true);
      SameItemsCons(p, item, ParseItems(p, i + consumed, false, true), UnitItems(SplitUnits(p[i + consumed..]), true));
    }
  }

  lemma BracketFromUnits(p: string, i: nat)
    requires i < |p| && '/' !in p
    ensures match ParseBracket(p, i, false)
      case None => UnitBracket(SplitUnits(p[i + 1..])).None?
      case Some(b) => UnitBracket(SplitUnits(p[i + 1..])) == Some((Class(b.negated, b.items), SplitUnits(p[b.next..])))
  {
    hide SplitUnits, ParseItems, UnitItems;
    var first := if StartsNegated(p, i) then i + 2 else i + 1;
    UnitsAfter(p, i + 1);
    UnitsAfter(p, first);
    ItemsFromUnits(p, first, false);
    if first < |p| && p[first] == ']' {
      ItemsFromUnits(p, first + 1, true);
    }
  }

  lemma NoTokens(p: string)
    ensures Tokens(p, |p|, false) == [] && UnitTokens([]) == []
  {
  }

  function UnitToken(u: Unit): Token {
    if u == Raw('*') then Star else if u == Raw('?') then AnyOne else Literal(CharOf(u))
  }

  /** One step of both readings outside brackets. */
  lemma PlainTokens(p: string, i: nat)
    requires i < |p| && '/' !in p && p[i] != '['
    ensures Tokens(p, i, false) == [UnitToken(UnitOf(p, i))] + Tokens(p, UnitEnd(p, i), false)
    ensures UnitTokens(SplitUnits(p[i..])) == [UnitToken(UnitOf(p, i))] + UnitTokens(SplitUnits(p[UnitEnd(p, i)..]))
  {
    hide SplitUnits, ParseBracket, UnitBracket;
    UnitsAfter(p, i);
  }

  /** One step of both readings at a bracket. */
  lemma BracketTokens(p: string, i: nat)
    requires i < |p| && '/' !in p && p[i] == '['
    ensures match ParseBracket(p, i, false)
      case None =>
        && Tokens(p, i, false) == [Literal('[')] + Tokens(p, i + 1, false)
        && UnitTokens(SplitUnits(p[i..])) == [Literal('[')] + UnitTokens(SplitUnits(p[i + 1..]))
      case Some(b) =>
        && Tokens(p, i, false) == [Class(b.negated, b.items)] + Tokens(p, b.next, false)
        && UnitTokens(SplitUnits(p[i..])) == [Class(b.negated, b.items)] + UnitTokens(SplitUnits(p[b.next..]))
  {
    hide SplitUnits, ParseBracket, UnitBracket;
    UnitsAfter(p, i);
    BracketFromUnits(p, i);
  }

  /** The tokens of a segment are a function of its units: what the escapes say is all that matters. */
  lemma {:induction false} TokensFromUnits(p: string, i: nat)
    requires i <= |p| && '/' !in p
    ensures Tokens(p, i, false) == UnitTokens(SplitUnits(p[i..]))
    decreases |p| - i
  {
    hide SplitUnits, ParseBracket, UnitBracket, Tokens, UnitTokens;
    if i == |p| {
      UnitsAtEnd(p);
      NoTokens(p);
    } else if p[i] == '[' {
      BracketTokens(p, i);
      match ParseBracket(p, i, false) {
        case None => TokensFromUnits(p, i + 1);
        case Some(b) => TokensFromUnits(p, b.next);
      }
    } else {
      PlainTokens(p, i);
      TokensFromUnits(p, UnitEnd(p, i));
    }
  }

  /** Segments that decode to the same units match the same names. */
  lemma SameUnitsSameMatches(a: string, b: string, name: string)
    requires '/' !in a && '/' !in b && SplitUnits(a) == SplitUnits(b)
    ensures Matches(Tokens(a, 0, false), name) <==> Matches(Tokens(b, 0, false), name)
  {
    TokensFromUnits(a, 0);
    TokensFromUnits(b, 0);
    assert a[0..] == a && b[0..] == b;
  }
}
