/** The meaning of a segment under `GLOB_NOESCAPE`: every character stands for itself (`src/glob.rs`). */
module GlobNoEscape {
  import opened Wrappers
  import opened GlobPattern
  import opened GlobPath
  import opened GlobUnits

  /** One unescaped unit for each character. */
  function RawUnits(p: string): (u: seq<Unit>)
    ensures |u| == |p| && forall i :: 0 <= i < |p| ==> u[i] == Raw(p[i])
  {
    seq(|p|, i requires 0 <= i < |p| => Raw(p[i]))
  }

  lemma RawDrop(p: string, i: nat, k: nat)
    requires i + k <= |p|
    ensures RawUnits(p[i..])[k..] == RawUnits(p[i + k..])
  {
  }

  lemma RawHead(p: string, i: nat)
    requires i < |p|
    ensures RawUnits(p[i..])[0] == Raw(p[i])
    ensures forall k :: 0 <= k < |p| - i ==> RawUnits(p[i..])[k] == Raw(p[i + k])
    ensures |RawUnits(p[i..])| == |p| - i
  {
  }

  /** Items and rest, read off the text, are those read off its raw units. */
  predicate SameRawItems(p: string, items: Option<(seq<Item>, nat)>, units: Option<(seq<Item>, seq<Unit>)>) {
    match items
    case None => units.None?
    case Some((its, next)) => next <= |p| && units == Some((its, RawUnits(p[next..])))
  }

  lemma RawItem(p: string, i: nat, hasAny: bool)
    requires i < |p| && !(p[i] == ']' && hasAny)
    ensures var (item, consumed) := NextItem(p, i, true);
      UnitItems(RawUnits(p[i..]), hasAny) == ConsItem(item, UnitItems(RawUnits(p[i + consumed..]), true))
  {
    RawHead(p, i);
    RawDrop(p, i, 1);
    if i + 3 <= |p| { RawDrop(p, i, 3); }
    hide RawUnits, ConsItem;
  }

  lemma RawItemsCons(p: string, item: Item, items: Option<(seq<Item>, nat)>, units: Option<(seq<Item>, seq<Unit>)>)
    requires SameRawItems(p, items, units)
    ensures SameRawItems(p, AddItem(item, items), ConsItem(item, units))
  {
  }

  lemma RawClosing(p: string, i: nat, hasAny: bool)
    requires i <= |p| && (i == |p| || (p[i] == ']' && hasAny))
    ensures SameRawItems(p, ParseItems(p, i, true, hasAny), UnitItems(RawUnits(p[i..]), hasAny))
  {
    if i < |p| {
      RawHead(p, i);
      RawDrop(p, i, 1);
    }
    hide RawUnits;
  }

  lemma {:induction false} RawItems(p: string, i: nat, hasAny: bool)
    requires i <= |p|
    ensures SameRawItems(p, ParseItems(p, i, true, hasAny), UnitItems(RawUnits(p[i..]), hasAny))
    decreases |p| - i
  {
    hide RawUnits, UnitItems, NextItem, SameRawItems, AddItem, ConsItem;
    if i == |p| || (p[i] == ']' && hasAny) {
      RawClosing(p, i, hasAny);
    } else {
      RawItem(p, i, hasAny);
      var (item, consumed) := NextItem(p, i, true);
      RawItems(p, i + consumed, true);
      RawItemsCons(p, item, ParseItems(p, i + consumed, true, true), UnitItems(RawUnits(p[i + consumed..]), true));
    }
  }

  lemma RawAfter(p: string, i: nat)
    requires i <= |p|
    ensures var u := RawUnits(p[i..]);
      && (u == [] <==> i == |p|)
      && (i < |p| ==> u[0] == Raw(p[i]) && u[1..] == RawUnits(p[i + 1..]))
  {
    if i < |p| {
      RawHead(p, i);
      RawDrop(p, i, 1);
    }
  }

  lemma RawBracket(p: string, i: nat)
    requires i < |p|
    ensures match ParseBracket(p, i, true)
      case None => UnitBracket(RawUnits(p[i + 1..])).None?
      case Some(b) => UnitBracket(RawUnits(p[i + 1..])) == Some((Class(b.negated, b.items), RawUnits(p[b.next..])))
  {
    hide RawUnits, ParseItems, UnitItems;
    var first := if StartsNegated(p, i) then i + 2 else i + 1;
    RawAfter(p, i + 1);
    RawAfter(p, first);
    RawItems(p, first, false);
    if first < |p| && p[first] == ']' {
      RawItems(p, first + 1, true);
    }
  }

  lemma RawPlainTokens(p: string, i: nat)
    requires i < |p| && p[i] != '['
    ensures Tokens(p, i, true) == [UnitToken(Raw(p[i]))] + Tokens(p, i + 1, true)
    ensures UnitTokens(RawUnits(p[i..])) == [UnitToken(Raw(p[i]))] + UnitTokens(RawUnits(p[i + 1..]))
  {
    RawHead(p, i);
    RawDrop(p, i, 1);
    hide RawUnits, ParseBracket, UnitBracket;
  }

  lemma RawBracketTokens(p: string, i: nat)
    requires i < |p| && p[i] == '['
    ensures match ParseBracket(p, i, true)
      case None =>
        && Tokens(p, i, true) == [Literal('[')] + Tokens(p, i + 1, true)
        && UnitTokens(RawUnits(p[i..])) == [Literal('[')] + UnitTokens(RawUnits(p[i + 1..]))
      case Some(b) =>
        && Tokens(p, i, true) == [Class(b.negated, b.items)] + Tokens(p, b.next, true)
        && UnitTokens(RawUnits(p[i..])) == [Class(b.negated, b.items)] + UnitTokens(RawUnits(p[b.next..]))
  {
    RawHead(p, i);
    RawDrop(p, i, 1);
    RawBracket(p, i);
    hide RawUnits, ParseBracket, UnitBracket;
  }

  lemma RawNoTokens(p: string)
    ensures Tokens(p, |p|, true) == [] && UnitTokens(RawUnits(p[|p|..])) == []
  {
    assert RawUnits(p[|p|..]) == [];
  }

  /** Without escapes a segment means what it means with every character taken as it stands, in brackets and
      outside: the reading of units is the same one that serves the patterns with escapes. */
  lemma {:induction false} TokensFromRawUnits(p: string, i: nat)
    requires i <= |p|
    ensures Tokens(p, i, true) == UnitTokens(RawUnits(p[i..]))
    decreases |p| - i
  {
    hide RawUnits, ParseBracket, UnitBracket, Tokens, UnitTokens;
    if i == |p| {
      RawNoTokens(p);
    } else if p[i] == '[' {
      RawBracketTokens(p, i);
      match ParseBracket(p, i, true) {
        case None => TokensFromRawUnits(p, i + 1);
        case Some(b) => TokensFromRawUnits(p, b.next);
      }
    } else {
      RawPlainTokens(p, i);
      TokensFromRawUnits(p, i + 1);
    }
  }

  lemma {:induction false} NothingEscaped(p: string)
    requires '/' !in p && '\\' !in p
    ensures SplitUnits(p) == RawUnits(p)
  {
    if p != [] {
      NothingEscaped(p[1..]);
      UnitAt(p, 0);
      assert p[0..] == p;
      assert RawUnits(p) == [Raw(p[0])] + RawUnits(p[1..]);
    }
  }

  /** A segment without a backslash means the same in both modes. */
  lemma ModesAgree(p: string)
    requires '/' !in p && '\\' !in p
    ensures Tokens(p, 0, true) == Tokens(p, 0, false)
  {
    TokensFromRawUnits(p, 0);
    TokensFromUnits(p, 0);
    NothingEscaped(p);
    assert p[0..] == p;
    hide SplitUnits, RawUnits, UnitTokens, Tokens;
  }
}
