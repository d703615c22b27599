/** From a declaration to its body on the masked bytes (`body_opening` and the brace matcher of
    `locate_masked` in scripts/architecture-docs/rust_evidence.rb). */
module RustBodies {
  import opened Optional
  import opened ByteStrings
  import opened RustMask

  const OPEN_PAREN: byte := 40
  const CLOSE_PAREN: byte := 41
  const MINUS: byte := 45
  const SEMICOLON: byte := 59
  const LESS: byte := 60
  const GREATER: byte := 62
  const OPEN_BRACKET: byte := 91
  const CLOSE_BRACKET: byte := 93

  // ----- brace-balanced text, as a grammar

  datatype Braces = Empty | Other(b: byte, rest: Braces) | Group(inner: Braces, rest: Braces)

  predicate WellFormed(x: Braces) {
    match x
    case Empty => true
    case Other(b, rest) => b != OPEN_BRACE && b != CLOSE_BRACE && WellFormed(rest)
    case Group(inner, rest) => WellFormed(inner) && WellFormed(rest)
  }

  function Spell(x: Braces): Bytes {
    match x
    case Empty => []
    case Other(b, rest) => [b] + Spell(rest)
    case Group(inner, rest) => [OPEN_BRACE] + Spell(inner) + [CLOSE_BRACE] + Spell(rest)
  }

  ghost predicate Balanced(t: Bytes) {
    exists x :: WellFormed(x) && Spell(x) == t
  }

  // ----- the brace matcher

  function Deeper(depth: nat, b: byte): int {
    if b == OPEN_BRACE then depth + 1 else if b == CLOSE_BRACE then depth - 1 else depth
  }

  /** How far it is until `depth` open braces are closed. */
  function Closing(t: Bytes, depth: nat): (n: Option<nat>)
    ensures n.Some? ==> n.value <= |t|
  {
    if depth == 0 then Some(0)
    else if t == [] then None
    else match Closing(t[1..], Deeper(depth, t[0]))
      case None => None
      case Some(n) => Some(n + 1)
  }

  lemma ClosingStep(b: byte, t: Bytes, depth: nat)
    requires depth > 0
    ensures Closing([b] + t, depth) == Plus(1, Closing(t, Deeper(depth, b)))
  {
    assert ([b] + t)[1..] == t;
  }

  lemma GroupLength(inner: Bytes, more: Bytes, rest: Bytes, depth: nat)
    requires depth > 0
    requires var after := [CLOSE_BRACE] + (more + rest);
      Closing(inner + after, depth + 1) == Plus(|inner|, Closing(after, depth + 1))
    requires Closing(more + rest, depth) == Plus(|more|, Closing(rest, depth))
    ensures var group := [OPEN_BRACE] + inner + [CLOSE_BRACE] + more;
      Closing(group + rest, depth) == Plus(|group|, Closing(rest, depth))
  {
    var after := [CLOSE_BRACE] + (more + rest);
    ClosingStep(OPEN_BRACE, inner + after, depth);
    ClosingStep(CLOSE_BRACE, more + rest, depth + 1);
    assert [OPEN_BRACE] + inner + [CLOSE_BRACE] + more + rest == [OPEN_BRACE] + (inner + after);
  }

  lemma {:induction false} ClosingOfSpelling(x: Braces, rest: Bytes, depth: nat)
    requires WellFormed(x) && depth > 0
    ensures Closing(Spell(x) + rest, depth) == Plus(|Spell(x)|, Closing(rest, depth))
    decreases x
  {
    match x
    case Empty =>
      assert Spell(x) + rest == rest;
    case Other(b, more) =>
      ClosingOfSpelling(more, rest, depth);
      ClosingStep(b, Spell(more) + rest, depth);
      assert [b] + Spell(more) + rest == [b] + (Spell(more) + rest);
    case Group(inner, more) =>
      ClosingOfSpelling(inner, [CLOSE_BRACE] + (Spell(more) + rest), depth + 1);
      ClosingOfSpelling(more, rest, depth);
      GroupLength(Spell(inner), Spell(more), rest, depth);
  }

  /** Where the matcher stops, a balanced text and a closing brace come first. */
  lemma {:induction false} SpellingOfClosing(t: Bytes, depth: nat) returns (x: Braces, rest: Bytes)
    requires depth > 0 && Closing(t, depth).Some?
    ensures WellFormed(x) && t == Spell(x) + ([CLOSE_BRACE] + rest)
    ensures Closing(rest, depth - 1).Some?
    decreases |t|
  {
    var b, after := t[0], t[1..];
    assert t == [b] + after;
    if b == CLOSE_BRACE {
      x, rest := Empty, after;
    } else if b == OPEN_BRACE {
      var inner, middle := SpellingOfClosing(after, depth + 1);
      var more, last := SpellingOfClosing(middle, depth);
      x, rest := Group(inner, more), last;
      GroupSpells(t, after, inner, middle, more, last);
    } else {
      var more, last := SpellingOfClosing(after, depth);
      x, rest := Other(b, more), last;
      assert [b] + Spell(more) + ([CLOSE_BRACE] + last) == [b] + (Spell(more) + ([CLOSE_BRACE] + last));
    }
  }

  lemma GroupSpells(t: Bytes, after: Bytes, inner: Braces, middle: Bytes, more: Braces, last: Bytes)
    requires t == [OPEN_BRACE] + after && after == Spell(inner) + ([CLOSE_BRACE] + middle)
    requires middle == Spell(more) + ([CLOSE_BRACE] + last)
    ensures t == Spell(Group(inner, more)) + ([CLOSE_BRACE] + last)
  {
    var a, b, c := Spell(inner), Spell(more), [CLOSE_BRACE] + last;
    assert [OPEN_BRACE] + (a + ([CLOSE_BRACE] + (b + c))) == [OPEN_BRACE] + a + [CLOSE_BRACE] + b + c;
  }

  lemma BalancedThenClosed(x: Braces, rest: Bytes)
    requires WellFormed(x)
    ensures Closing(Spell(x) + ([CLOSE_BRACE] + rest), 1) == Some(|Spell(x)| + 1)
  {
    ClosingOfSpelling(x, [CLOSE_BRACE] + rest, 1);
    ClosingStep(CLOSE_BRACE, rest, 1);
  }

  /** The matcher stops right after the brace that closes the body, exactly: what lies between is balanced,
      and no other stop has that property. */
  lemma MatcherFindsTheBody(t: Bytes, n: nat)
    ensures Closing(t, 1) == Some(n) <==> 0 < n <= |t| && t[n - 1] == CLOSE_BRACE && Balanced(t[..n - 1])
  {
    if Closing(t, 1) == Some(n) {
      MatchedIsBody(t, n);
    }
    if 0 < n <= |t| && t[n - 1] == CLOSE_BRACE && Balanced(t[..n - 1]) {
      BodyIsMatched(t, n);
    }
  }

  lemma BodyIsMatched(t: Bytes, n: nat)
    requires 0 < n <= |t| && t[n - 1] == CLOSE_BRACE && Balanced(t[..n - 1])
    ensures Closing(t, 1) == Some(n)
  {
    var x :| WellFormed(x) && Spell(x) == t[..n - 1];
    BalancedThenClosed(x, t[n..]);
    SplitAt(t, n);
  }

  lemma SplitAt(t: Bytes, n: nat)
    requires 0 < n <= |t|
    ensures t == t[..n - 1] + ([t[n - 1]] + t[n..])
  {
  }

  lemma MatchedIsBody(t: Bytes, n: nat)
    requires Closing(t, 1) == Some(n)
    ensures 0 < n <= |t| && t[n - 1] == CLOSE_BRACE && Balanced(t[..n - 1])
  {
    var x, rest := SpellingOfClosing(t, 1);
    BalancedThenClosed(x, rest);
    assert t[..n - 1] == Spell(x);
  }

  /** The loop, from the byte after the opening brace. */
  method MatchBody(masked: Bytes, opening: nat) returns (cursor: Option<nat>)
    requires opening < |masked|
    ensures cursor == Plus(opening + 1, Closing(masked[opening + 1..], 1))
  {
    var depth, i := 1, opening + 1;
    while depth > 0 && i < |masked|
      invariant depth >= 0 && opening + 1 <= i <= |masked|
      invariant Plus(i, Closing(masked[i..], depth)) == Plus(opening + 1, Closing(masked[opening + 1..], 1))
      decreases |masked| - i
    {
      assert masked[i..][0] == masked[i] && masked[i..][1..] == masked[i + 1..];
      depth := Deeper(depth, masked[i]);
      i := i + 1;
    }
    cursor := if depth == 0 then Some(i) else None;
  }

  // ----- where the body opens

  datatype Nesting = Nesting(parens: int, brackets: int, angles: int, constants: int) {
    predicate None() {
      parens == 0 && brackets == 0 && angles == 0 && constants == 0
    }
  }

  function Round(n: Nesting, b: byte): Nesting {
    n.(parens := n.parens + (if b == OPEN_PAREN then 1 else if b == CLOSE_PAREN then -1 else 0),
       brackets := n.brackets + (if b == OPEN_BRACKET then 1 else if b == CLOSE_BRACKET then -1 else 0))
  }

  /** Angle brackets count outside the others; the arrow of a return type closes none. */
  function Angled(n: Nesting, b: byte, previous: byte): Nesting {
    if n.parens != 0 || n.brackets != 0 || n.constants != 0 then n
    else if b == LESS then n.(angles := n.angles + 1)
    else if b == GREATER && n.angles > 0 && previous != MINUS then n.(angles := n.angles - 1)
    else n
  }

  /** Braces inside angle brackets belong to constant expressions. */
  function Braced(n: Nesting, b: byte): Nesting {
    if b == OPEN_BRACE && n.angles > 0 then n.(constants := n.constants + 1)
    else if b == CLOSE_BRACE && n.constants > 0 then n.(constants := n.constants - 1)
    else n
  }

  function Count(n: Nesting, b: byte, previous: byte): Nesting {
    Braced(Angled(Round(n, b), b, previous), b)
  }

  /** The nesting after the bytes from `offset` up to and including `i`. */
  function NestingAt(t: Bytes, offset: nat, i: int): Nesting
    requires i < |t|
    decreases i - offset + 1
  {
    if i < offset then Nesting(0, 0, 0, 0)
    else Count(NestingAt(t, offset, i - 1), t[i], if i == 0 then 0 else t[i - 1])
  }

  /** A brace or semicolon outside all nesting. */
  predicate Decides(t: Bytes, offset: nat, i: int) {
    offset <= i < |t| && (t[i] == OPEN_BRACE || t[i] == SEMICOLON) && NestingAt(t, offset, i).None()
  }

  ghost predicate NoneDecides(t: Bytes, offset: nat, end: int) {
    forall i :: offset <= i < end ==> !Decides(t, offset, i)
  }

  ghost predicate FirstDecides(t: Bytes, offset: nat, i: int) {
    Decides(t, offset, i) && NoneDecides(t, offset, i)
  }

  /** `body_opening`: the first brace or semicolon outside all nesting, if it is a brace. */
  method BodyOpening(t: Bytes, offset: nat) returns (opening: Option<nat>)
    requires offset <= |t|
    ensures opening.Some? ==> FirstDecides(t, offset, opening.value) && t[opening.value] == OPEN_BRACE
    ensures opening.None? ==>
      NoneDecides(t, offset, |t|) || exists i :: FirstDecides(t, offset, i) && t[i] == SEMICOLON
  {
    var n, i := Nesting(0, 0, 0, 0), offset;
    while i < |t|
      invariant offset <= i <= |t|
      invariant n == NestingAt(t, offset, i - 1)
      invariant NoneDecides(t, offset, i)
    {
      n := Count(n, t[i], if i == 0 then 0 else t[i - 1]);
      assert n == NestingAt(t, offset, i);
      if n.None() {
        if t[i] == OPEN_BRACE {
          return Some(i);
        }
        if t[i] == SEMICOLON {
          assert FirstDecides(t, offset, i);
          return None;
        }
      }
      i := i + 1;
    }
    opening := None;
  }

  function Occurrences(t: Bytes, b: byte): nat {
    if t == [] then 0 else Occurrences(t[..|t| - 1], b) + if t[|t| - 1] == b then 1 else 0
  }

  function Worth(b: byte, open: byte, close: byte): int {
    if b == open then 1 else if b == close then -1 else 0
  }

  lemma CountIsRound(n: Nesting, b: byte, previous: byte)
    requires n.angles >= 0 && n.constants >= 0
    ensures var c := Count(n, b, previous);
      && c.parens == n.parens + Worth(b, OPEN_PAREN, CLOSE_PAREN)
      && c.brackets == n.brackets + Worth(b, OPEN_BRACKET, CLOSE_BRACKET)
      && c.angles >= 0 && c.constants >= 0
  {
  }

  /** How many more of one byte than of another. */
  function Excess(t: Bytes, open: byte, close: byte): int {
    Occurrences(t, open) - Occurrences(t, close)
  }

  lemma ExcessStep(t: Bytes, offset: nat, i: nat, open: byte, close: byte)
    requires offset <= i < |t| && open != close
    ensures Excess(t[offset..i + 1], open, close) == Excess(t[offset..i], open, close) + Worth(t[i], open, close)
  {
    var part := t[offset..i + 1];
    assert part[..|part| - 1] == t[offset..i] && part[|part| - 1] == t[i];
  }

  lemma {:induction false} RoundsAreCounted(t: Bytes, offset: nat, i: int)
    requires offset - 1 <= i < |t|
    ensures var n, part := NestingAt(t, offset, i), t[offset..i + 1];
      && n.parens == Excess(part, OPEN_PAREN, CLOSE_PAREN)
      && n.brackets == Excess(part, OPEN_BRACKET, CLOSE_BRACKET)
      && n.angles >= 0 && n.constants >= 0
    decreases i
  {
    if i >= offset {
      RoundsAreCounted(t, offset, i - 1);
      CountIsRound(NestingAt(t, offset, i - 1), t[i], if i == 0 then 0 else t[i - 1]);
      ExcessStep(t, offset, i, OPEN_PAREN, CLOSE_PAREN);
      ExcessStep(t, offset, i, OPEN_BRACKET, CLOSE_BRACKET);
    }
  }

  /** In the signature before the opening brace as many parentheses and brackets close as open. */
  lemma SignatureIsClosed(t: Bytes, offset: nat, opening: nat)
    requires Decides(t, offset, opening) && t[opening] == OPEN_BRACE
    ensures var signature := t[offset..opening + 1];
      && Occurrences(signature, OPEN_PAREN) == Occurrences(signature, CLOSE_PAREN)
      && Occurrences(signature, OPEN_BRACKET) == Occurrences(signature, CLOSE_BRACKET)
  {
    RoundsAreCounted(t, offset, opening);
  }

  // ----- the lines of the item

  /** The start of the line that `offset` lies on. */
  function LineStart(t: Bytes, offset: nat): (n: nat)
    requires offset <= |t|
    ensures n <= offset && LF !in t[n..offset] && (n == 0 || t[n - 1] == LF)
  {
    if offset == 0 || t[offset - 1] == LF then offset
    else
      var n := LineStart(t, offset - 1);
      assert t[n..offset] == t[n..offset - 1] + [t[offset - 1]];
      n
  }

  /** The end of the line that `cursor` lies on, with its line feed. */
  function LineEnd(t: Bytes, cursor: nat): (n: nat)
    requires cursor <= |t|
    ensures cursor <= n <= |t| && (n == |t| || (n > cursor && t[n - 1] == LF))
    decreases |t| - cursor
  {
    if cursor == |t| then cursor else if t[cursor] == LF then cursor + 1 else LineEnd(t, cursor + 1)
  }

  datatype Item = Item(start: nat, end: nat, startLine: nat, endLine: nat, body: Bytes)

  function ItemAt(t: Bytes, offset: nat, opening: nat, cursor: nat): Item
    requires offset <= opening && opening + 2 <= cursor <= |t|
  {
    var start := LineStart(t, offset);
    Item(start, LineEnd(t, cursor), Occurrences(t[..start], LF) + 1, Occurrences(t[..cursor], LF) + 1,
         t[opening + 1..cursor - 1])
  }

  /** Line feeds are where they are in the source. */
  predicate SameLines(s: Bytes, t: Bytes) {
    |s| == |t| && forall i :: 0 <= i < |s| ==> (s[i] == LF <==> t[i] == LF)
  }

  lemma {:induction false} SameStart(s: Bytes, t: Bytes, offset: nat)
    requires SameLines(s, t) && offset <= |s|
    ensures LineStart(s, offset) == LineStart(t, offset)
  {
    if offset > 0 && s[offset - 1] != LF {
      SameStart(s, t, offset - 1);
    }
  }

  lemma {:induction false} SameEnd(s: Bytes, t: Bytes, cursor: nat)
    requires SameLines(s, t) && cursor <= |s|
    ensures LineEnd(s, cursor) == LineEnd(t, cursor)
    decreases |s| - cursor
  {
    if cursor < |s| && s[cursor] != LF {
      SameEnd(s, t, cursor + 1);
    }
  }

  lemma {:induction false} SameCount(s: Bytes, t: Bytes)
    requires SameLines(s, t)
    ensures Occurrences(s, LF) == Occurrences(t, LF)
  {
    if s != [] {
      SameCount(s[..|s| - 1], t[..|t| - 1]);
    }
  }

  /** The lines that are hashed and reported are found on the mask, and are those of the source. */
  lemma LinesAreTheSources(source: Bytes, offset: nat, opening: nat, cursor: nat)
    requires Mask(source).Ok? && |Mask(source).bytes| == |source|
    requires offset <= opening && opening + 2 <= cursor <= |source|
    ensures var a, b := ItemAt(Mask(source).bytes, offset, opening, cursor), ItemAt(source, offset, opening, cursor);
      a.start == b.start && a.end == b.end && a.startLine == b.startLine && a.endLine == b.endLine
  {
    var masked := Mask(source).bytes;
    MaskKeepsLayout(source);
    SameStart(masked, source, offset);
    SameEnd(masked, source, cursor);
    var start := LineStart(source, offset);
    SameCount(masked[..start], source[..start]);
    SameCount(masked[..cursor], source[..cursor]);
  }
}
