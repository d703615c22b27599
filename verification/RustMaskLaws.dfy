/** The two laws of the mask: masking again changes nothing, and masking goes line by line. */
module RustMaskLaws {
  import opened Optional
  import opened ByteStrings
  import opened RustMask

  predicate Blanked(b: byte) {
    b == SPACE || b == LF || b == CR
  }

  /** No quotation mark survives: one that is reached opens a string. */
  lemma {:induction false} MaskHasNoQuote(t: Bytes)
    requires Mask(t).Ok?
    ensures QUOTE !in Mask(t).bytes
  {
    if t != [] {
      match Lex(t)
      case Code => MaskHasNoQuote(t[1..]);
      case Region(n) => MaskHasNoQuote(t[n..]);
    }
  }

  /** A blank with no blank beside it, the end of the text counting as one. */
  predicate Isolated(r: Bytes, i: int) {
    0 <= i < |r| - 1 && Blanked(r[i]) && (i == 0 || !Blanked(r[i - 1])) && !Blanked(r[i + 1])
  }

  /** Where a mask is known to show the source: outside blanks, and at an isolated blank. */
  ghost predicate Shows(r: Bytes, t: Bytes) {
    && |r| == |t|
    && (forall i :: 0 <= i < |t| ==> Blanked(r[i]) || r[i] == t[i])
    && (forall i {:trigger Isolated(r, i)} :: Isolated(r, i) ==> r[i] == t[i])
  }

  lemma ShowsAfterCode(b: byte, r: Bytes, t: Bytes)
    requires Shows(r, t)
    ensures Shows([b] + r, [b] + t)
  {
    var x, y := [b] + r, [b] + t;
    forall i | Isolated(x, i) ensures x[i] == y[i] {
      if i > 0 {
        assert x[i] == r[i - 1] && y[i] == t[i - 1] && x[i + 1] == r[i];
        assert i > 1 ==> x[i - 1] == r[i - 2];
        assert Isolated(r, i - 1);
      }
    }
  }

  /** A region is at least two bytes long, so none of its blanks is isolated. */
  lemma ShowsAfterRegion(blanks: Bytes, region: Bytes, r: Bytes, t: Bytes)
    requires Shows(r, t) && |blanks| == |region| >= 2 && forall i :: 0 <= i < |blanks| ==> Blanked(blanks[i])
    ensures Shows(blanks + r, region + t)
  {
    var x, y, n := blanks + r, region + t, |blanks|;
    forall i | 0 <= i < |y| ensures Blanked(x[i]) || x[i] == y[i] {
      if i >= n {
        assert x[i] == r[i - n] && y[i] == t[i - n];
      }
    }
    assert forall i {:trigger Isolated(x, i)} :: i <= n ==> !Isolated(x, i);
    forall i | i > n && Isolated(x, i) ensures x[i] == y[i] {
      assert x[i - 1] == r[i - n - 1] && x[i] == r[i - n] && y[i] == t[i - n] && x[i + 1] == r[i - n + 1];
      assert Isolated(r, i - n);
    }
  }

  lemma {:induction false} MaskShowsSource(t: Bytes)
    requires Mask(t).Ok?
    ensures Shows(Mask(t).bytes, t)
  {
    if t != [] {
      match Lex(t)
      case Code =>
        MaskShowsSource(t[1..]);
        assert t == [t[0]] + t[1..];
        ShowsAfterCode(t[0], Mask(t[1..]).bytes, t[1..]);
      case Region(n) =>
        MaskShowsSource(t[n..]);
        assert t == t[..n] + t[n..];
        ShowsAfterRegion(BlankAll(t[..n]), t[..n], Mask(t[n..]).bytes, t[n..]);
    }
  }

  /** A character literal is decided by its own bytes. */
  lemma CharLengthLocal(x: Bytes, y: Bytes)
    requires 0 < CharLength(x) <= |y| && forall i :: 0 <= i < CharLength(x) ==> x[i] == y[i]
    ensures CharLength(y) == CharLength(x)
  {
    if x[1] == BACKSLASH && x[2] == LOWER_U && CharLength(x) > 4 {
      var n := HexRun(x[4..]);
      assert forall i :: 0 <= i <= n ==> y[4..][i] == x[4..][i];
      HexRunIs(y[4..], n);
    } else if x[1] >= 0xC0 {
      var n := ContinuationRun(x[2..]);
      assert forall i :: 0 <= i <= n ==> y[2..][i] == x[2..][i];
      ContinuationRunIs(y[2..], n);
    }
  }

  lemma {:induction false} HexRunIs(t: Bytes, n: nat)
    requires n < |t| && (forall i :: 0 <= i < n ==> HexOrUnderscore(t[i])) && !HexOrUnderscore(t[n])
    ensures HexRun(t) == n
  {
    if n > 0 {
      HexRunIs(t[1..], n - 1);
    }
  }

  lemma {:induction false} ContinuationRunIs(t: Bytes, n: nat)
    requires n < |t| && (forall i :: 0 <= i < n ==> Continuation(t[i])) && !Continuation(t[n])
    ensures ContinuationRun(t) == n
  {
    if n > 0 {
      ContinuationRunIs(t[1..], n - 1);
    }
  }

  /** Which bytes of a character literal can be blanks. */
  lemma BlanksInCharacter(x: Bytes)
    requires CharLength(x) > 0
    ensures (exists i :: 0 <= i < CharLength(x) && Blanked(x[i])) ==>
      || (CharLength(x) == 3 && x[2] == APOSTROPHE && Blanked(x[1]))
      || (CharLength(x) == 4 && x[1] == BACKSLASH && Blanked(x[2]) && x[3] == APOSTROPHE)
  {
    if x[1] == BACKSLASH && x[2] == LOWER_U && CharLength(x) > 4 {
      assert forall i :: 4 <= i < 4 + HexRun(x[4..]) ==> x[i] == x[4..][i - 4];
    } else if x[1] >= 0xC0 {
      assert forall i :: 2 <= i < 2 + ContinuationRun(x[2..]) ==> x[i] == x[2..][i - 2];
    }
  }

  /** The bytes of a character literal that a mask shows are the source's own. */
  lemma CharacterIsShown(x: Bytes, y: Bytes)
    requires Shows(x, y) && CharLength(x) > 0
    ensures forall i :: 0 <= i < CharLength(x) ==> x[i] == y[i]
  {
    BlanksInCharacter(x);
    if exists i :: 0 <= i < CharLength(x) && Blanked(x[i]) {
      assert CharLength(x) == 3 ==> Isolated(x, 1);
      assert CharLength(x) == 4 ==> Isolated(x, 2);
    }
  }

  /** No character literal appears where there was none: a region is at least two bytes long, so
      blanking it never leaves exactly one byte between two apostrophes. */
  lemma MaskMakesNoCharacter(u: Bytes, r: Bytes)
    requires Mask(u) == Ok(r) && CharLength([APOSTROPHE] + r) > 0
    ensures CharLength([APOSTROPHE] + u) > 0
  {
    MaskShowsSource(u);
    ShowsAfterCode(APOSTROPHE, r, u);
    CharacterIsShown([APOSTROPHE] + r, [APOSTROPHE] + u);
    CharLengthLocal([APOSTROPHE] + r, [APOSTROPHE] + u);
  }

  /** Nothing maskable starts at the head of a mask. */
  lemma MaskStartsNoRegion(t: Bytes)
    requires t != [] && Mask(t).Ok?
    ensures Mask(t).bytes != [] && Lex(Mask(t).bytes) == Code
  {
    MaskHead(t);
    var r := Mask(t).bytes;
    if Lex(t) == Code {
      MaskHasNoQuote(t);
      if Starts(r, SLASH, SLASH) || Starts(r, SLASH, STAR) {
        assert Mask(t[1..]).bytes == r[1..];
        UnmaskedHead(t[1..]);
      }
      if t[0] == APOSTROPHE && CharLength(r) > 0 {
        assert r == [APOSTROPHE] + Mask(t[1..]).bytes && t == [APOSTROPHE] + t[1..];
        MaskMakesNoCharacter(t[1..], Mask(t[1..]).bytes);
      }
    }
  }

  lemma BlankIsCode(b: byte, t: Bytes)
    requires Blanked(b)
    ensures Mask([b] + t) == Prepend([b], Mask(t))
  {
    assert ([b] + t)[1..] == t;
    assert Lex([b] + t) == Code;
  }

  lemma PrependPrepend(a: Bytes, b: Bytes, rest: Masked)
    ensures Prepend(a, Prepend(b, rest)) == Prepend(a + b, rest)
  {
    if rest.Ok? {
      assert a + (b + rest.bytes) == a + b + rest.bytes;
    }
  }

  lemma {:induction false} MaskOfBlanks(b: Bytes, rest: Bytes)
    requires forall i :: 0 <= i < |b| ==> Blanked(b[i])
    ensures Mask(b + rest) == Prepend(b, Mask(rest))
  {
    if b == [] {
      assert b + rest == rest;
    } else {
      assert b + rest == [b[0]] + (b[1..] + rest);
      BlankIsCode(b[0], b[1..] + rest);
      MaskOfBlanks(b[1..], rest);
      PrependPrepend([b[0]], b[1..], Mask(rest));
      assert b == [b[0]] + b[1..];
    }
  }

  /** Masking a mask succeeds and changes nothing. */
  lemma {:induction false} MaskIsIdempotent(t: Bytes)
    requires Mask(t).Ok?
    ensures Mask(Mask(t).bytes) == Mask(t)
  {
    if t != [] {
      var r := Mask(t).bytes;
      match Lex(t)
      case Code =>
        MaskStartsNoRegion(t);
        MaskIsIdempotent(t[1..]);
        assert r[1..] == Mask(t[1..]).bytes;
      case Region(n) =>
        MaskIsIdempotent(t[n..]);
        MaskOfBlanks(BlankAll(t[..n]), Mask(t[n..]).bytes);
    }
  }

  // ----- line by line

  lemma {:induction false} LineLengthLocal(t: Bytes, b: Bytes)
    ensures LineLength(t + [LF] + b) == LineLength(t)
  {
    if t != [] {
      assert (t + [LF] + b)[1..] == t[1..] + [LF] + b;
      LineLengthLocal(t[1..], b);
    }
  }

  lemma {:induction false} CommentLengthLocal(t: Bytes, depth: nat, w: Bytes)
    requires CommentLength(t, depth).Some?
    ensures CommentLength(t + w, depth) == CommentLength(t, depth)
    decreases |t|
  {
    if depth > 0 {
      assert (t + w)[1..] == t[1..] + w;
      if |t| == 1 {
        assert CommentLength(t[1..], depth) == None;
      } else {
        assert (t + w)[2..] == t[2..] + w;
        if Starts(t, SLASH, STAR) {
          CommentLengthLocal(t[2..], depth + 1, w);
        } else if Starts(t, STAR, SLASH) {
          CommentLengthLocal(t[2..], depth - 1, w);
        } else {
          CommentLengthLocal(t[1..], depth, w);
        }
      }
    }
  }

  lemma {:induction false} HashRunLocal(t: Bytes, b: Bytes)
    ensures HashRun(t + [LF] + b) == HashRun(t)
  {
    if t != [] {
      assert (t + [LF] + b)[1..] == t[1..] + [LF] + b;
      HashRunLocal(t[1..], b);
    }
  }

  lemma {:induction false} RawLengthLocal(t: Bytes, k: nat, b: Bytes)
    requires RawLength(t, k).Some?
    ensures RawLength(t + [LF] + b, k) == RawLength(t, k)
  {
    assert (t + [LF] + b)[1..] == t[1..] + [LF] + b;
    HashRunLocal(t[1..], b);
    if !ClosesRaw(t, k) {
      RawLengthLocal(t[1..], k, b);
    }
  }

  lemma {:induction false} StringLengthLocal(t: Bytes, w: Bytes)
    requires StringLength(t).Some?
    ensures StringLength(t + w) == StringLength(t)
  {
    assert (t + w)[1..] == t[1..] + w;
    if t[0] == BACKSLASH {
      assert (t + w)[2..] == t[2..] + w;
      StringLengthLocal(t[2..], w);
    } else if t[0] != QUOTE {
      StringLengthLocal(t[1..], w);
    }
  }

  lemma CharacterHasNoLineFeed(t: Bytes)
    ensures forall i :: 0 <= i < CharLength(t) ==> t[i] != LF
  {
    if CharLength(t) > 0 {
      if t[1] == BACKSLASH && t[2] == LOWER_U && CharLength(t) > 4 {
        assert forall i :: 4 <= i < 4 + HexRun(t[4..]) ==> t[i] == t[4..][i - 4];
      } else if t[1] >= 0xC0 {
        assert forall i :: 2 <= i < 2 + ContinuationRun(t[2..]) ==> t[i] == t[2..][i - 2];
      }
    }
  }

  lemma CharLengthAtLineEnd(t: Bytes, b: Bytes)
    ensures CharLength(t + [LF] + b) == CharLength(t)
  {
    var x := t + [LF] + b;
    if CharLength(t) > 0 {
      CharLengthLocal(t, x);
    } else if CharLength(x) > 0 {
      CharacterHasNoLineFeed(x);
      assert x[|t|] == LF;
      CharLengthLocal(x, t);
    }
  }

  lemma LexLineComment(t: Bytes, b: Bytes)
    requires Starts(t, SLASH, SLASH)
    ensures Lex(t + [LF] + b) == Lex(t)
  {
    assert (t + [LF] + b)[2..] == t[2..] + [LF] + b;
    LineLengthLocal(t[2..], b);
  }

  lemma LexBlockComment(t: Bytes, b: Bytes)
    requires Starts(t, SLASH, STAR) && CommentLength(t[2..], 1).Some?
    ensures Lex(t + [LF] + b) == Lex(t)
  {
    assert (t + [LF] + b)[2..] == t[2..] + ([LF] + b);
    CommentLengthLocal(t[2..], 1, [LF] + b);
  }

  lemma OpensRawLocal(t: Bytes, b: Bytes)
    requires t != []
    ensures OpensRaw(t + [LF] + b) == OpensRaw(t)
    ensures HashRun((t + [LF] + b)[1..]) == HashRun(t[1..])
  {
    assert (t + [LF] + b)[1..] == t[1..] + [LF] + b;
    HashRunLocal(t[1..], b);
  }

  lemma LexRaw(t: Bytes, b: Bytes)
    requires OpensRaw(t) && RawLength(t[HashRun(t[1..]) + 2..], HashRun(t[1..])).Some?
    ensures Lex(t + [LF] + b) == Lex(t)
  {
    var k := HashRun(t[1..]);
    OpensRawLocal(t, b);
    assert (t + [LF] + b)[k + 2..] == t[k + 2..] + [LF] + b;
    RawLengthLocal(t[k + 2..], k, b);
  }

  lemma LexString(t: Bytes, b: Bytes)
    requires t != [] && t[0] == QUOTE && StringLength(t[1..]).Some?
    ensures Lex(t + [LF] + b) == Lex(t)
  {
    assert (t + [LF] + b)[1..] == t[1..] + ([LF] + b);
    StringLengthLocal(t[1..], [LF] + b);
  }

  lemma LexOther(t: Bytes, b: Bytes)
    requires t != [] && !Starts(t, SLASH, SLASH) && !Starts(t, SLASH, STAR) && !OpensRaw(t) && t[0] != QUOTE
    ensures Lex(t + [LF] + b) == Lex(t)
  {
    OpensRawLocal(t, b);
    CharLengthAtLineEnd(t, b);
  }

  /** A lexeme that is complete within a line end is the same with more text after the line end. */
  lemma LexLocal(t: Bytes, b: Bytes)
    requires t != [] && !Lex(t).Unterminated?
    ensures Lex(t + [LF] + b) == Lex(t)
  {
    if Starts(t, SLASH, SLASH) {
      LexLineComment(t, b);
    } else if Starts(t, SLASH, STAR) {
      LexBlockComment(t, b);
    } else if OpensRaw(t) {
      LexRaw(t, b);
    } else if t[0] == QUOTE {
      LexString(t, b);
    } else {
      LexOther(t, b);
    }
  }

  function LexemeSize(x: Lexeme): nat
    requires !x.Unterminated?
  {
    if x.Code? then 1 else x.size
  }

  /** The mask of one lexeme. */
  function MaskOne(x: Lexeme, t: Bytes): Bytes
    requires t != []
  {
    if x.Code? then [t[0]] else BlankAll(t)
  }

  lemma MaskUnfolds(t: Bytes, n: nat)
    requires t != [] && !Lex(t).Unterminated? && n == LexemeSize(Lex(t))
    ensures 0 < n <= |t| && Mask(t) == Prepend(MaskOne(Lex(t), t[..n]), Mask(t[n..]))
  {
  }

  lemma MaskLineStep(a: Bytes, b: Bytes, n: nat, head: Bytes)
    requires a != [] && !Lex(a).Unterminated? && n == LexemeSize(Lex(a)) && head == MaskOne(Lex(a), a[..n])
    ensures Mask(a) == Prepend(head, Mask(a[n..]))
    ensures Mask(a + [LF] + b) == Prepend(head, Mask(a[n..] + [LF] + b))
  {
    var x := a + [LF] + b;
    LexLocal(a, b);
    MaskUnfolds(a, n);
    MaskUnfolds(x, n);
    assert x[n..] == a[n..] + [LF] + b && x[..n] == a[..n];
  }

  lemma PrependLine(head: Bytes, line: Bytes, rest: Masked)
    ensures Prepend(head, Prepend(line + [LF], rest)) == Prepend(head + line + [LF], rest)
  {
    PrependPrepend(head, line + [LF], rest);
    assert head + (line + [LF]) == head + line + [LF];
  }

  lemma MaskLineFeed(b: Bytes)
    ensures Mask([] + [LF] + b) == Prepend([] + [LF], Mask(b))
  {
    assert [] + [LF] + b == [LF] + b && [] + [LF] == [LF];
    BlankIsCode(LF, b);
  }

  /** Compositional at line ends: once `a` masks, the rest is masked on its own, and fails on its own. */
  lemma {:induction false} MaskGoesLineByLine(a: Bytes, b: Bytes)
    requires Mask(a).Ok?
    ensures Mask(a + [LF] + b) == Prepend(Mask(a).bytes + [LF], Mask(b))
  {
    if a == [] {
      MaskLineFeed(b);
    } else {
      var n := LexemeSize(Lex(a));
      var head := MaskOne(Lex(a), a[..n]);
      MaskLineStep(a, b, n, head);
      MaskGoesLineByLine(a[n..], b);
      PrependLine(head, Mask(a[n..]).bytes, Mask(b));
    }
  }
}
