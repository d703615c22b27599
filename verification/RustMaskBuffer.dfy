/** The mask as it runs: one pass over the source, overwriting a copy of it in place. */
module RustMaskBuffer {
  import opened Optional
  import opened ByteStrings
  import opened RustMask
  import opened RustMaskLaws

  method ScanLine(bytes: Bytes, index: nat) returns (finish: nat)
    requires index <= |bytes|
    ensures finish == index + LineLength(bytes[index..])
  {
    finish := index;
    while finish < |bytes| && bytes[finish] != LF
      invariant index <= finish <= |bytes|
      invariant finish + LineLength(bytes[finish..]) == index + LineLength(bytes[index..])
    {
      assert bytes[finish..][1..] == bytes[finish + 1..];
      finish := finish + 1;
    }
  }

  /** Where the block comments open at `cursor` end. */
  function CommentFinish(bytes: Bytes, cursor: nat, depth: nat): Option<nat>
    requires cursor <= |bytes|
  {
    Plus(cursor, CommentLength(bytes[cursor..], depth))
  }

  method CommentAdvance(bytes: Bytes, cursor: nat, depth: nat) returns (cursor': nat, depth': nat)
    requires cursor < |bytes| && depth > 0
    ensures cursor < cursor' <= |bytes|
    ensures CommentFinish(bytes, cursor', depth') == CommentFinish(bytes, cursor, depth)
  {
    var t := bytes[cursor..];
    if Starts(t, SLASH, STAR) {
      assert t[2..] == bytes[cursor + 2..];
      depth', cursor' := depth + 1, cursor + 2;
    } else if Starts(t, STAR, SLASH) {
      assert t[2..] == bytes[cursor + 2..];
      depth', cursor' := depth - 1, cursor + 2;
    } else {
      assert t[1..] == bytes[cursor + 1..];
      depth', cursor' := depth, cursor + 1;
    }
  }

  /** From just after an opening mark to just after the mark that closes it. */
  method ScanComment(bytes: Bytes, start: nat) returns (finish: Option<nat>)
    requires start <= |bytes|
    ensures finish == CommentFinish(bytes, start, 1)
  {
    var depth, cursor := 1, start;
    while depth > 0 && cursor < |bytes|
      invariant 0 <= depth && start <= cursor <= |bytes|
      invariant CommentFinish(bytes, cursor, depth) == CommentFinish(bytes, start, 1)
      decreases |bytes| - cursor
    {
      cursor, depth := CommentAdvance(bytes, cursor, depth);
    }
    finish := if depth > 0 then None else Some(cursor);
  }

  /** Where the raw string that is open at `cursor` ends. */
  function RawFinish(bytes: Bytes, cursor: nat, hashes: nat): Option<nat>
    requires cursor <= |bytes|
  {
    Plus(cursor, RawLength(bytes[cursor..], hashes))
  }

  lemma RawAdvances(bytes: Bytes, cursor: nat, hashes: nat)
    requires cursor < |bytes|
    ensures RawFinish(bytes, cursor, hashes) ==
      if ClosesRaw(bytes[cursor..], hashes) then Some(cursor + 1 + hashes) else RawFinish(bytes, cursor + 1, hashes)
  {
    assert bytes[cursor..][1..] == bytes[cursor + 1..];
  }

  method ScanRaw(bytes: Bytes, start: nat, hashes: nat) returns (finish: Option<nat>)
    requires start <= |bytes|
    ensures finish == RawFinish(bytes, start, hashes)
  {
    var cursor := start;
    while cursor < |bytes|
      invariant start <= cursor <= |bytes|
      invariant RawFinish(bytes, cursor, hashes) == RawFinish(bytes, start, hashes)
    {
      RawAdvances(bytes, cursor, hashes);
      if ClosesRaw(bytes[cursor..], hashes) {
        return Some(cursor + 1 + hashes);
      }
      cursor := cursor + 1;
    }
    finish := None;
  }

  /** Where the string that is open at `cursor` ends; an escape may have gone past the last byte. */
  function StringFinish(bytes: Bytes, cursor: nat): Option<nat> {
    if cursor <= |bytes| then Plus(cursor, StringLength(bytes[cursor..])) else None
  }

  /** One byte, or an escape of two. */
  function AfterStringByte(bytes: Bytes, cursor: nat): nat
    requires cursor < |bytes|
  {
    cursor + if bytes[cursor] == BACKSLASH then 2 else 1
  }

  lemma StringAdvances(bytes: Bytes, cursor: nat)
    requires cursor < |bytes| && bytes[cursor] != QUOTE
    ensures StringFinish(bytes, AfterStringByte(bytes, cursor)) == StringFinish(bytes, cursor)
  {
    var rest := bytes[cursor..];
    assert rest[1..] == bytes[cursor + 1..];
    if |rest| >= 2 {
      assert rest[2..] == bytes[cursor + 2..];
    }
  }

  lemma StringEnds(bytes: Bytes, cursor: nat)
    requires cursor >= |bytes| || bytes[cursor] == QUOTE
    ensures StringFinish(bytes, cursor) == if cursor >= |bytes| then None else Some(cursor + 1)
  {
  }

  method ScanString(bytes: Bytes, start: nat) returns (finish: Option<nat>)
    requires start <= |bytes|
    ensures finish == StringFinish(bytes, start)
  {
    var cursor := start;
    while cursor < |bytes| && bytes[cursor] != QUOTE
      invariant start <= cursor
      invariant StringFinish(bytes, cursor) == StringFinish(bytes, start)
      decreases |bytes| - cursor
    {
      StringAdvances(bytes, cursor);
      cursor := AfterStringByte(bytes, cursor);
    }
    StringEnds(bytes, cursor);
    finish := if cursor >= |bytes| then None else Some(cursor + 1);
  }

  lemma LineFromSlashes(t: Bytes)
    requires Starts(t, SLASH, SLASH)
    ensures LineLength(t) == 2 + LineLength(t[2..])
  {
    assert t[1..][1..] == t[2..];
  }

  /** The lexeme from `index` to where it was found to end. */
  function LexemeTo(finish: Option<nat>, index: nat, error: Error): Lexeme
    requires finish.Some? ==> finish.value >= index
  {
    if finish.None? then Unterminated(error) else Region(finish.value - index)
  }

  lemma LexedLine(bytes: Bytes, index: nat)
    requires index < |bytes| && Starts(bytes[index..], SLASH, SLASH)
    ensures Lex(bytes[index..]) == Region(LineLength(bytes[index..]))
  {
    LineFromSlashes(bytes[index..]);
  }

  lemma LexedComment(bytes: Bytes, index: nat)
    requires index < |bytes| && Starts(bytes[index..], SLASH, STAR)
    ensures Lex(bytes[index..]) == LexemeTo(CommentFinish(bytes, index + 2, 1), index, UnterminatedComment)
  {
    assert bytes[index..][2..] == bytes[index + 2..];
  }

  lemma LexedRaw(bytes: Bytes, index: nat, k: nat)
    requires index < |bytes| && OpensRaw(bytes[index..]) && k == HashRun(bytes[index..][1..])
    requires !Starts(bytes[index..], SLASH, SLASH) && !Starts(bytes[index..], SLASH, STAR)
    ensures index + k + 2 <= |bytes|
    ensures Lex(bytes[index..]) == LexemeTo(RawFinish(bytes, index + k + 2, k), index, UnterminatedRawString)
  {
    assert bytes[index..][k + 2..] == bytes[index + k + 2..];
  }

  lemma LexedString(bytes: Bytes, index: nat)
    requires index < |bytes| && bytes[index] == QUOTE
    ensures Lex(bytes[index..]) == LexemeTo(StringFinish(bytes, index + 1), index, UnterminatedString)
  {
    assert bytes[index..][1..] == bytes[index + 1..];
  }

  /** What starts at `index`. */
  method Scan(bytes: Bytes, index: nat) returns (lexeme: Lexeme)
    requires index < |bytes|
    ensures lexeme == Lex(bytes[index..])
  {
    var t := bytes[index..];
    if Starts(t, SLASH, SLASH) {
      LexedLine(bytes, index);
      var finish := ScanLine(bytes, index);
      return Region(finish - index);
    } else if Starts(t, SLASH, STAR) {
      LexedComment(bytes, index);
      var finish := ScanComment(bytes, index + 2);
      return LexemeTo(finish, index, UnterminatedComment);
    } else if OpensRaw(t) {
      var k := HashRun(t[1..]);
      LexedRaw(bytes, index, k);
      var finish := ScanRaw(bytes, index + k + 2, k);
      return LexemeTo(finish, index, UnterminatedRawString);
    } else if t[0] == QUOTE {
      LexedString(bytes, index);
      var finish := ScanString(bytes, index + 1);
      return LexemeTo(finish, index, UnterminatedString);
    }
    lexeme := if CharLength(t) > 0 then Region(CharLength(t)) else Code;
  }

  /** Half way: the buffer is masked up to `index`, where the lexer stands, and still the source after. */
  ghost predicate MaskedUpTo(bytes: Bytes, buffer: Bytes, index: nat) {
    && |buffer| == |bytes| && index <= |bytes|
    && buffer[index..] == bytes[index..]
    && Mask(bytes) == Prepend(buffer[..index], Mask(bytes[index..]))
  }

  /** Overwrite one region, leaving line endings. */
  method BlankRange(result: array<byte>, bytes: Bytes, index: nat, finish: nat)
    requires result.Length == |bytes| && index <= finish <= |bytes|
    requires result[index..] == bytes[index..]
    modifies result
    ensures result[..] == old(result[..index]) + BlankAll(bytes[index..finish]) + bytes[finish..]
  {
    ghost var before := result[..];
    assert forall i :: index <= i < |bytes| ==> result[i] == result[index..][i - index] == bytes[i];
    for offset := index to finish
      invariant forall i :: 0 <= i < index ==> result[i] == before[i]
      invariant forall i :: index <= i < offset ==> result[i] == Blank(bytes[i])
      invariant forall i :: offset <= i < |bytes| ==> result[i] == bytes[i]
    {
      if bytes[offset] != LF && bytes[offset] != CR {
        result[offset] := SPACE;
      }
    }
    forall i | index <= i < finish ensures result[i] == BlankAll(bytes[index..finish])[i - index] {
      assert bytes[index..finish][i - index] == bytes[i];
    }
  }

  lemma CodeStep(bytes: Bytes, buffer: Bytes, index: nat)
    requires MaskedUpTo(bytes, buffer, index) && index < |bytes| && Lex(bytes[index..]) == Code
    ensures MaskedUpTo(bytes, buffer, index + 1)
  {
    var t, done := bytes[index..], buffer[..index];
    assert t[1..] == bytes[index + 1..] && buffer[index..][1..] == buffer[index + 1..];
    assert buffer[index] == buffer[index..][0] == t[0];
    assert buffer[..index + 1] == done + [t[0]];
    PrependPrepend(done, [t[0]], Mask(t[1..]));
  }

  lemma RegionStep(bytes: Bytes, buffer: Bytes, index: nat, n: nat, after: Bytes)
    requires MaskedUpTo(bytes, buffer, index) && index < |bytes| && Lex(bytes[index..]) == Region(n)
    requires index + n <= |bytes| && after == buffer[..index] + BlankAll(bytes[index..index + n]) + bytes[index + n..]
    ensures MaskedUpTo(bytes, after, index + n)
  {
    var t, done := bytes[index..], buffer[..index];
    assert t[n..] == bytes[index + n..] && t[..n] == bytes[index..index + n];
    assert after[..index + n] == done + BlankAll(t[..n]);
    assert after[index + n..] == bytes[index + n..];
    PrependPrepend(done, BlankAll(t[..n]), Mask(t[n..]));
  }

  lemma MaskBegins(bytes: Bytes)
    ensures MaskedUpTo(bytes, bytes, 0)
  {
    assert bytes[0..] == bytes && bytes[..0] == [];
    if Mask(bytes).Ok? {
      assert [] + Mask(bytes).bytes == Mask(bytes).bytes;
    }
  }

  lemma MaskEnds(bytes: Bytes, buffer: Bytes)
    requires MaskedUpTo(bytes, buffer, |bytes|)
    ensures Mask(bytes) == Ok(buffer)
  {
    assert bytes[|bytes|..] == [] && buffer[..|bytes|] == buffer;
    assert buffer + [] == buffer;
  }

  /** The whole pass over the buffer. */
  method MaskInto(bytes: Bytes, result: array<byte>) returns (error: Option<Error>)
    requires result.Length == |bytes| && result[..] == bytes
    modifies result
    ensures Mask(bytes) == if error.None? then Ok(result[..]) else Invalid(error.value)
  {
    var index := 0;
    MaskBegins(bytes);
    while index < |bytes|
      invariant MaskedUpTo(bytes, result[..], index)
      decreases |bytes| - index
    {
      var lexeme := Scan(bytes, index);
      match lexeme
      case Unterminated(e) => return Some(e);
      case Code =>
        CodeStep(bytes, result[..], index);
        index := index + 1;
      case Region(n) =>
        index := MaskRegion(bytes, result, index, n);
    }
    MaskEnds(bytes, result[..]);
    error := None;
  }

  method MaskRegion(bytes: Bytes, result: array<byte>, index: nat, n: nat) returns (finish: nat)
    requires result.Length == |bytes| && MaskedUpTo(bytes, result[..], index)
    requires index < |bytes| && Lex(bytes[index..]) == Region(n)
    modifies result
    ensures finish == index + n && MaskedUpTo(bytes, result[..], finish)
  {
    ghost var before := result[..];
    assert result[index..] == before[index..] && result[..index] == before[..index];
    finish := index + n;
    BlankRange(result, bytes, index, finish);
    RegionStep(bytes, before, index, n, result[..]);
  }
}
