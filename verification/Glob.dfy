/** The glob matcher behind the KEYS command (raft-kv/server/redis_store.cpp:10-128), with nocase = 0. */
module Glob {

  /** A C char; only equality and order matter. */
  type Ch = c: int | -128 <= c < 128 witness 0

  const NUL: Ch := 0
  const STAR: Ch := 42
  const DASH: Ch := 45
  const QUESTION: Ch := 63
  const OPEN: Ch := 91
  const BACKSLASH: Ch := 92
  const CLOSE: Ch := 93
  const CARET: Ch := 94

  // ---------------------------------------------------------------- what a pattern means

  datatype Item = Single(c: Ch) | Range(lo: Ch, hi: Ch)

  datatype Token = Many | One | Lit(c: Ch) | Class(negated: bool, items: seq<Item>)

  /** The members of a class up to its closing bracket, or to the end if it has none. */
  function Items(pat: seq<Ch>): (r: (seq<Item>, seq<Ch>))
    ensures |r.1| <= |pat|
  {
    if pat == [] then ([], [])
    else if pat[0] == BACKSLASH && |pat| >= 2 then
      var (items, rest) := Items(pat[2..]);
      ([Single(pat[1])] + items, rest)
    else if pat[0] == CLOSE then ([], pat[1..])
    else if |pat| >= 3 && pat[1] == DASH then
      var (items, rest) := Items(pat[3..]);
      ([Range(pat[0], pat[2])] + items, rest)
    else
      var (items, rest) := Items(pat[1..]);
      ([Single(pat[0])] + items, rest)
  }

  /** The first token of a pattern, and what follows it. */
  function First(pat: seq<Ch>): (r: (Token, seq<Ch>))
    requires pat != []
    ensures |r.1| < |pat|
  {
    var rest := pat[1..];
    if pat[0] == STAR then (Many, rest)
    else if pat[0] == QUESTION then (One, rest)
    else if pat[0] == OPEN then
      var negated := rest != [] && rest[0] == CARET;
      var (items, after) := Items(if negated then rest[1..] else rest);
      (Class(negated, items), after)
    else if pat[0] == BACKSLASH && rest != [] then (Lit(rest[0]), rest[1..])
    else (Lit(pat[0]), rest)
  }

  function Tokens(pat: seq<Ch>): seq<Token>
    decreases |pat|
  {
    if pat == [] then [] else [First(pat).0] + Tokens(First(pat).1)
  }

  predicate InItem(i: Item, c: Ch) {
    match i
    case Single(x) => x == c
    case Range(lo, hi) => lo <= c <= hi || hi <= c <= lo
  }

  predicate InItems(items: seq<Item>, c: Ch) { exists i :: i in items && InItem(i, c) }

  /** Whether a token other than Many stands for the character c. */
  predicate Accepts(t: Token, c: Ch) {
    match t
    case Many => false
    case One => true
    case Lit(x) => x == c
    case Class(negated, items) => negated != InItems(items, c)
  }

  /** Each token in turn stands for its part of the string; Many stands for any part. */
  ghost predicate Matches(tokens: seq<Token>, s: seq<Ch>) {
    if tokens == [] then s == []
    else if tokens[0].Many? then exists k :: 0 <= k <= |s| && Matches(tokens[1..], s[k..])
    else s != [] && Accepts(tokens[0], s[0]) && Matches(tokens[1..], s[1..])
  }

  /** What the matcher answers: on an empty string it never looks at the pattern. */
  ghost predicate Answer(pat: seq<Ch>, s: seq<Ch>) {
    if s == [] then pat == [] else Matches(Tokens(pat), s)
  }

  // ---------------------------------------------------------------- facts about patterns

  lemma TokensUnfold(pat: seq<Ch>)
    requires pat != []
    ensures Tokens(pat) == [First(pat).0] + Tokens(First(pat).1)
    ensures Tokens(pat)[0] == First(pat).0 && Tokens(pat)[1..] == Tokens(First(pat).1)
  {
  }

  /** A token that is not a star takes exactly one character. */
  lemma OneStep(pat: seq<Ch>, s: seq<Ch>)
    requires pat != [] && s != [] && pat[0] != STAR
    ensures Answer(pat, s) <==> Accepts(First(pat).0, s[0]) && Matches(Tokens(First(pat).1), s[1..])
  {
    TokensUnfold(pat);
    hide Tokens, Accepts, Items;
  }

  /** A star takes any part. */
  lemma StarStep(pat: seq<Ch>, s: seq<Ch>)
    requires pat != [] && pat[0] == STAR
    ensures Matches(Tokens(pat), s) <==> exists k :: 0 <= k <= |s| && Matches(Tokens(pat[1..]), s[k..])
  {
    TokensUnfold(pat);
    hide Tokens;
  }

  lemma StarTakes(pat: seq<Ch>, s: seq<Ch>, k: nat)
    requires pat != [] && pat[0] == STAR && k <= |s| && Matches(Tokens(pat[1..]), s[k..])
    ensures Matches(Tokens(pat), s)
  {
    hide Matches, Tokens;
    StarStep(pat, s);
  }

  lemma StarStar(pat: seq<Ch>, s: seq<Ch>)
    requires |pat| >= 2 && pat[0] == STAR && pat[1] == STAR
    ensures Matches(Tokens(pat), s) <==> Matches(Tokens(pat[1..]), s)
  {
    hide Matches;
    TokensUnfold(pat);
    TokensUnfold(pat[1..]);
    hide Tokens;
    TwoStars(Tokens(pat[1..][1..]), s);
  }

  lemma NoTokens(s: seq<Ch>)
    ensures Tokens([]) == [] && (Matches([], s) <==> s == [])
  {
  }

  lemma MatchesMany(tokens: seq<Token>, s: seq<Ch>, k: nat)
    requires tokens != [] && tokens[0].Many? && k <= |s| && Matches(tokens[1..], s[k..])
    ensures Matches(tokens, s)
  {
  }

  /** Two stars in a row say no more than one. */
  lemma TwoStars(tokens: seq<Token>, s: seq<Ch>)
    ensures Matches([Many] + ([Many] + tokens), s) <==> Matches([Many] + tokens, s)
  {
    hide Matches;
    var one, two := [Many] + tokens, [Many] + ([Many] + tokens);
    assert one[1..] == tokens && two[1..] == one;
    if Matches(two, s) {
      var k := SplitMany(two, s);
      var j := SplitMany(one, s[k..]);
      assert s[k..][j..] == s[k + j..];
      MatchesMany(one, s, k + j);
    }
    if Matches(one, s) {
      assert s[0..] == s;
      MatchesMany(two, s, 0);
    }
  }

  lemma SplitMany(tokens: seq<Token>, s: seq<Ch>) returns (k: nat)
    requires tokens != [] && tokens[0].Many? && Matches(tokens, s)
    ensures k <= |s| && Matches(tokens[1..], s[k..])
  {
    k :| 0 <= k <= |s| && Matches(tokens[1..], s[k..]);
  }

  /** Nothing but stars matches the empty string. */
  lemma {:induction false} EmptyNeedsStars(pat: seq<Ch>)
    ensures Matches(Tokens(pat), []) <==> forall i | 0 <= i < |pat| :: pat[i] == STAR
    decreases |pat|
  {
    if pat != [] {
      TokensUnfold(pat);
      if pat[0] == STAR {
        EmptyNeedsStars(pat[1..]);
        var none: seq<Ch> := [];
        if Matches(Tokens(pat[1..]), none) {
          assert none[0..] == none;
          MatchesMany(Tokens(pat), none, 0);
        }
        assert forall i | 0 < i < |pat| :: pat[i] == pat[1..][i - 1];
        if Matches(Tokens(pat), none) {
          var k :| 0 <= k <= |none| && Matches(Tokens(pat)[1..], none[k..]);
          assert none[k..] == none;
          forall i | 0 <= i < |pat| ensures pat[i] == STAR {
            if i > 0 {
              assert pat[1..][i - 1] == STAR;
            }
          }
        }
      }
    }
  }

  lemma ItemsOf(i: Item, items: seq<Item>, c: Ch)
    ensures InItems([i] + items, c) <==> InItem(i, c) || InItems(items, c)
  {
    if InItem(i, c) {
      assert i in [i] + items;
    }
    if InItems(items, c) {
      var j :| j in items && InItem(j, c);
      assert j in [i] + items;
    }
  }

  /** The members of a class, one case per kind. */
  lemma ItemsStep(pat: seq<Ch>, c: Ch)
    ensures pat == [] ==> Items(pat).1 == [] && !InItems(Items(pat).0, c)
    ensures pat != [] ==>
      if pat[0] == BACKSLASH && |pat| >= 2 then
        && Items(pat).1 == Items(pat[2..]).1
        && (InItems(Items(pat).0, c) <==> pat[1] == c || InItems(Items(pat[2..]).0, c))
      else if pat[0] == CLOSE then Items(pat).1 == pat[1..] && !InItems(Items(pat).0, c)
      else if |pat| >= 3 && pat[1] == DASH then
        && Items(pat).1 == Items(pat[3..]).1
        && (InItems(Items(pat).0, c) <==> InItem(Range(pat[0], pat[2]), c) || InItems(Items(pat[3..]).0, c))
      else
        && Items(pat).1 == Items(pat[1..]).1
        && (InItems(Items(pat).0, c) <==> pat[0] == c || InItems(Items(pat[1..]).0, c))
  {
    hide InItems;
    NoItems(c);
    if pat == [] {
    } else if pat[0] == BACKSLASH && |pat| >= 2 {
      ItemsOf(Single(pat[1]), Items(pat[2..]).0, c);
    } else if pat[0] == CLOSE {
    } else if |pat| >= 3 && pat[1] == DASH {
      ItemsOf(Range(pat[0], pat[2]), Items(pat[3..]).0, c);
    } else {
      ItemsOf(Single(pat[0]), Items(pat[1..]).0, c);
    }
  }

  lemma NoItems(c: Ch)
    ensures !InItems([], c)
  {
  }

  // ---------------------------------------------------------------- the matcher

  /** The pattern from p on, without its terminator. */
  function From(buf: seq<Ch>, p: nat): seq<Ch>
    requires p < |buf|
  {
    buf[p..|buf| - 1]
  }

  ghost predicate Terminated(buf: seq<Ch>) { |buf| >= 1 && buf[|buf| - 1] == NUL }

  /** The loop over a character class; it ends on the closing bracket, or on the pattern's last character. */
  method MatchClass(buf: seq<Ch>, start: nat, c: Ch) returns (matched: bool, p: nat)
    requires Terminated(buf) && 1 <= start < |buf|
    ensures p < |buf| - 1
    ensures var (items, rest) := Items(From(buf, start));
      matched == InItems(items, c) && From(buf, p + 1) == rest
  {
    hide Items, InItems;
    p := start;
    var len := |buf| - 1 - p;
    matched := false;
    ghost var (items, rest) := Items(From(buf, start));
    while true
      invariant start <= p < |buf| && len == |buf| - 1 - p
      invariant var (more, tail) := Items(From(buf, p));
        tail == rest && (InItems(items, c) <==> matched || InItems(more, c))
      decreases len
    {
      ItemsStep(From(buf, p), c);
      Suffixes(buf, p);
      if buf[p] == BACKSLASH && len >= 2 {
        p := p + 1;
        len := len - 1;
        if buf[p] == c {
          matched := true;
        }
      } else if buf[p] == CLOSE {
        break;
      } else if len == 0 {
        p := p - 1;
        len := len + 1;
        break;
      } else if buf[p + 1] == DASH && len >= 3 {
        var first, last := buf[p], buf[p + 2];
        if first > last {
          first, last := last, first;
        }
        p := p + 2;
        len := len - 2;
        if first <= c <= last {
          matched := true;
        }
      } else {
        if buf[p] == c {
          matched := true;
        }
      }
      p := p + 1;
      len := len - 1;
    }
  }

  lemma Suffixes(buf: seq<Ch>, p: nat)
    requires p < |buf|
    ensures var here := From(buf, p);
      && |here| == |buf| - 1 - p
      && (forall i | 0 <= i < |here| :: here[i] == buf[p + i])
      && (forall k: nat | k <= |here| :: here[k..] == From(buf, p + k))
  {
  }

  /**
   * string_match_len. It ends, it reads no further than the terminator of the pattern, and it
   * answers whether the string matches. An empty string matches the empty pattern only, not even
   * a star.
   */
  method StringMatch(buf: seq<Ch>, p0: nat, str: seq<Ch>, s0: nat) returns (yes: bool)
    requires Terminated(buf) && p0 < |buf| && s0 <= |str|
    ensures yes == Answer(From(buf, p0), str[s0..])
    ensures s0 < |str| ==> yes == Matches(Tokens(From(buf, p0)), str[s0..])
    ensures s0 == |str| ==> yes == (p0 == |buf| - 1)
    decreases |buf| - p0
  {
    hide Matches, Tokens, Items, InItems;
    var p, len := p0, |buf| - 1 - p0;
    var s, left := s0, |str| - s0;
    while len != 0 && left != 0
      invariant p0 <= p < |buf| && len == |buf| - 1 - p
      invariant s0 <= s <= |str| && left == |str| - s
      invariant Answer(From(buf, p0), str[s0..]) == Answer(From(buf, p), str[s..])
      decreases len
    {
      ghost var here, text := From(buf, p), str[s..];
      assert text[0] == str[s] && text[1..] == str[s + 1..];
      if buf[p] == STAR {
        yes := MatchStar(buf, p, str, s);
        return;
      }
      OneStep(here, text);
      ghost var (token, rest) := First(here);
      var end, taken := MatchOne(buf, p, str[s]);
      if !taken {
        return false;
      }
      s := s + 1;
      left := left - 1;
      p := end + 1;
      len := |buf| - 1 - p;
      if left == 0 {
        yes := OnlyStars(buf, p);
        return;
      }
    }
    NoTokens(str[s..]);
    yes := len == 0 && left == 0;
  }

  /** The cases of the switch that take one character; end is the last place of the token. */
  method MatchOne(buf: seq<Ch>, p0: nat, c: Ch) returns (end: nat, taken: bool)
    requires Terminated(buf) && p0 < |buf| - 1 && buf[p0] != STAR
    ensures taken == Accepts(First(From(buf, p0)).0, c)
    ensures p0 <= end < |buf| - 1
    ensures From(buf, end + 1) == First(From(buf, p0)).1
  {
    hide Items, InItems;
    ghost var here := From(buf, p0);
    assert here[1..] == From(buf, p0 + 1);
    var p, len := p0, |buf| - 1 - p0;
    if buf[p] == QUESTION {
      return p, true;
    }
    if buf[p] == OPEN {
      p := p + 1;
      var negated := buf[p] == CARET;
      if negated {
        p := p + 1;
        assert From(buf, p) == From(buf, p0 + 1)[1..];
      }
      taken, end := MatchClass(buf, p, c);
      if negated {
        taken := !taken;
      }
      return;
    }
    if buf[p] == BACKSLASH && len >= 2 {
      p := p + 1;
      assert From(buf, p + 1) == here[1..][1..];
    }
    return p, buf[p] == c;
  }

  /** The tail of the loop once the string is used up. */
  method OnlyStars(buf: seq<Ch>, p0: nat) returns (yes: bool)
    requires Terminated(buf) && p0 < |buf|
    ensures yes == Matches(Tokens(From(buf, p0)), [])
  {
    var p := p0;
    EmptyNeedsStars(From(buf, p0));
    while buf[p] == STAR
      invariant p0 <= p < |buf|
      invariant forall i | p0 <= i < p :: buf[i] == STAR
      decreases |buf| - p
    {
      p := p + 1;
    }
    yes := p == |buf| - 1;
    assert !yes ==> From(buf, p0)[p - p0] != STAR;
  }

  /** A star: the rest of the pattern is tried on every non-empty rest of the string. */
  method MatchStar(buf: seq<Ch>, p0: nat, str: seq<Ch>, s0: nat) returns (yes: bool)
    requires Terminated(buf) && p0 < |buf| - 1 && buf[p0] == STAR && s0 < |str|
    ensures yes == Matches(Tokens(From(buf, p0)), str[s0..])
    decreases |buf| - p0, 0
  {
    hide Matches, Tokens;
    var p := p0;
    ghost var text := str[s0..];
    while buf[p + 1] == STAR
      invariant p0 <= p < |buf| - 1 && buf[p] == STAR
      invariant Matches(Tokens(From(buf, p0)), text) == Matches(Tokens(From(buf, p)), text)
      decreases |buf| - p
    {
      StarStar(From(buf, p), text);
      assert From(buf, p)[1..] == From(buf, p + 1);
      p := p + 1;
    }
    ghost var here, rest := From(buf, p), From(buf, p + 1);
    assert here[1..] == rest;
    if p + 1 == |buf| - 1 {
      NoTokens([]);
      assert rest == [] && text[|text|..] == [];
      StarTakes(here, text, |text|);
      return true;
    }
    EmptyNeedsStars(rest);
    StarStep(here, text);
    var s := s0;
    while s < |str|
      invariant s0 <= s <= |str|
      invariant forall k | 0 <= k < s - s0 :: !Matches(Tokens(rest), text[k..])
    {
      assert text[s - s0..] == str[s..];
      var found := StringMatch(buf, p + 1, str, s);
      if found {
        return true;
      }
      s := s + 1;
    }
    assert text[|text|..] == [] && rest[0] != STAR;
    return false;
  }

  /** So the answer is the meaning of the pattern exactly when the string is not empty or the pattern is not just stars. */
  lemma AnswerIsMeaning(pat: seq<Ch>, s: seq<Ch>)
    ensures (Answer(pat, s) <==> Matches(Tokens(pat), s))
      <==> s != [] || pat == [] || exists i :: 0 <= i < |pat| && pat[i] != STAR
  {
    EmptyNeedsStars(pat);
  }

  // ---------------------------------------------------------------- what single patterns mean

  /** A star takes any part of the string, a question mark any one character, any other just itself. */
  lemma PlainPatterns(p: seq<Ch>, s: seq<Ch>, c: Ch)
    ensures Matches(Tokens([]), s) <==> s == []
    ensures Matches(Tokens([STAR] + p), s) <==> exists k :: 0 <= k <= |s| && Matches(Tokens(p), s[k..])
    ensures Matches(Tokens([QUESTION] + p), s) <==> s != [] && Matches(Tokens(p), s[1..])
    ensures c != STAR && c != QUESTION && c != OPEN && c != BACKSLASH ==>
      (Matches(Tokens([c] + p), s) <==> s != [] && s[0] == c && Matches(Tokens(p), s[1..]))
    ensures Matches(Tokens([BACKSLASH, c] + p), s) <==> s != [] && s[0] == c && Matches(Tokens(p), s[1..])
    ensures Matches(Tokens([BACKSLASH]), s) <==> s == [BACKSLASH]
  {
    hide Tokens, Items, Matches;
    var star, one, lit, esc, last := [STAR] + p, [QUESTION] + p, [c] + p, [BACKSLASH, c] + p, [BACKSLASH];
    assert star[1..] == p && one[1..] == p && lit[1..] == p && esc[1..][1..] == p && last[1..] == [];
    NoTokens(s);
    StarStep(star, s);
    TakesOne(one, s);
    TakesOne(lit, s);
    TakesOne(esc, s);
    TakesOne(last, s);
    if s != [] {
      NoTokens(s[1..]);
    }
  }

  /** A pattern that does not start with a star takes one character with its first token. */
  lemma TakesOne(pat: seq<Ch>, s: seq<Ch>)
    requires pat != []
    ensures pat[0] != STAR ==>
      (Matches(Tokens(pat), s) <==> s != [] && Accepts(First(pat).0, s[0]) && Matches(Tokens(First(pat).1), s[1..]))
  {
    TokensUnfold(pat);
    hide Tokens, Items, Accepts;
  }

  /** What follows the opening bracket, with or without a caret, decides what the token takes. */
  lemma TakesClass(body: seq<Ch>, negated: bool, s: seq<Ch>)
    requires body == [] || body[0] != CARET
    ensures var pat := [OPEN] + (if negated then [CARET] else []) + body;
      Matches(Tokens(pat), s) <==>
        s != [] && negated != InItems(Items(body).0, s[0]) && Matches(Tokens(Items(body).1), s[1..])
  {
    var pat := [OPEN] + (if negated then [CARET] else []) + body;
    assert pat[1..] == (if negated then [CARET] else []) + body;
    assert negated ==> pat[1..][1..] == body;
    TakesOne(pat, s);
    hide Tokens, Items, Matches, InItems;
  }

  /** A class that is closed at once has no members. */
  lemma ClosedClass(p: seq<Ch>, c: Ch)
    ensures Items([CLOSE] + p).1 == p && !InItems(Items([CLOSE] + p).0, c)
  {
    ItemsStep([CLOSE] + p, c);
    assert ([CLOSE] + p)[1..] == p;
  }

  /** Between brackets a range takes what lies between its ends, whichever comes first; with a caret, all else. */
  lemma RangePattern(p: seq<Ch>, s: seq<Ch>, a: Ch, b: Ch, negated: bool)
    requires a != BACKSLASH && a != CLOSE && a != CARET
    ensures Matches(Tokens([OPEN] + (if negated then [CARET] else []) + ([a, DASH, b, CLOSE] + p)), s)
      <==> s != [] && negated != (a <= s[0] <= b || b <= s[0] <= a) && Matches(Tokens(p), s[1..])
  {
    hide Tokens, Items, Matches, InItems;
    var body := [a, DASH, b, CLOSE] + p;
    TakesClass(body, negated, s);
    assert body[3..] == [CLOSE] + p;
    if s != [] {
      ItemsStep(body, s[0]);
      ClosedClass(p, s[0]);
    }
  }

  /** Two characters take either. */
  lemma PairPattern(p: seq<Ch>, s: seq<Ch>, a: Ch, b: Ch, negated: bool)
    requires a != BACKSLASH && a != CLOSE && a != CARET && b != BACKSLASH && b != CLOSE && b != DASH
    ensures Matches(Tokens([OPEN] + (if negated then [CARET] else []) + ([a, b, CLOSE] + p)), s)
      <==> s != [] && negated != (s[0] == a || s[0] == b) && Matches(Tokens(p), s[1..])
  {
    hide Tokens, Items, Matches, InItems;
    var body := [a, b, CLOSE] + p;
    TakesClass(body, negated, s);
    assert body[1..] == [b, CLOSE] + p && body[1..][1..] == [CLOSE] + p;
    if s != [] {
      ItemsStep(body, s[0]);
      ItemsStep(body[1..], s[0]);
      ClosedClass(p, s[0]);
    }
  }

  /** A bracket can be escaped, an empty class takes nothing, and one that is not closed ends with the pattern. */
  lemma OddClasses(p: seq<Ch>, s: seq<Ch>, a: Ch)
    ensures Matches(Tokens([OPEN] + ([BACKSLASH, a, CLOSE] + p)), s) <==> s != [] && s[0] == a && Matches(Tokens(p), s[1..])
    ensures !Matches(Tokens([OPEN] + ([CLOSE] + p)), s)
    ensures a != BACKSLASH && a != CLOSE && a != CARET ==> (Matches(Tokens([OPEN] + [a]), s) <==> s == [a])
  {
    hide Tokens, Items, Matches, InItems;
    var escaped := [BACKSLASH, a, CLOSE] + p;
    assert escaped[2..] == [CLOSE] + p && [a][1..] == [];
    assert [OPEN] + [] + escaped == [OPEN] + escaped && [OPEN] + [] + ([CLOSE] + p) == [OPEN] + ([CLOSE] + p);
    assert [OPEN] + [] + [a] == [OPEN] + [a];
    TakesClass(escaped, false, s);
    TakesClass([CLOSE] + p, false, s);
    if s != [] {
      ItemsStep(escaped, s[0]);
      ClosedClass(p, s[0]);
      ItemsStep([a], s[0]);
      ItemsStep([], s[0]);
      NoTokens(s[1..]);
    }
    if a != CARET {
      TakesClass([a], false, s);
    }
  }
}
