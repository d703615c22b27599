/** The byte-preserving lexical mask over Rust source (`mask` in scripts/architecture-docs/rust_evidence.rb):
    comments, strings, raw strings and character literals become spaces, line endings stay. */
module RustMask {
  import opened Optional
  import opened ByteStrings

  const LF: byte := 10
  const CR: byte := 13
  const SPACE: byte := 32
  const QUOTE: byte := 34
  const HASH: byte := 35
  const APOSTROPHE: byte := 39
  const STAR: byte := 42
  const SLASH: byte := 47
  const BACKSLASH: byte := 92
  const LOWER_R: byte := 114
  const LOWER_U: byte := 117
  const LOWER_X: byte := 120
  const OPEN_BRACE: byte := 123
  const CLOSE_BRACE: byte := 125

  datatype Error = UnterminatedComment | UnterminatedRawString | UnterminatedString

  /** What starts at the head of a non-empty suffix: plain code, a literal or comment of `size`
      bytes, or one that never ends. */
  datatype Lexeme = Code | Region(size: nat) | Unterminated(error: Error)

  datatype Masked = Ok(bytes: Bytes) | Invalid(error: Error)

  predicate Starts(t: Bytes, a: byte, b: byte) {
    |t| >= 2 && t[0] == a && t[1] == b
  }

  /** Bytes up to the first line feed, or all of them. */
  function LineLength(t: Bytes): (n: nat)
    ensures n <= |t|
  {
    if t == [] || t[0] == LF then 0 else 1 + LineLength(t[1..])
  }

  function Plus(n: nat, rest: Option<nat>): Option<nat> {
    if rest.None? then None else Some(n + rest.value)
  }

  /** Bytes until `depth` open block comments are closed. */
  function CommentLength(t: Bytes, depth: nat): (n: Option<nat>)
    ensures n.Some? ==> n.value <= |t|
    decreases |t|
  {
    if depth == 0 then Some(0)
    else if t == [] then None
    else if Starts(t, SLASH, STAR) then Plus(2, CommentLength(t[2..], depth + 1))
    else if Starts(t, STAR, SLASH) then Plus(2, CommentLength(t[2..], depth - 1))
    else Plus(1, CommentLength(t[1..], depth))
  }

  function HashRun(t: Bytes): (n: nat)
    ensures n <= |t| && (forall i :: 0 <= i < n ==> t[i] == HASH) && (n < |t| ==> t[n] != HASH)
  {
    if t == [] || t[0] != HASH then 0 else 1 + HashRun(t[1..])
  }

  /** A quote followed by at least `hashes` hashes. */
  predicate ClosesRaw(t: Bytes, hashes: nat) {
    t != [] && t[0] == QUOTE && HashRun(t[1..]) >= hashes
  }

  /** Bytes up to and including the first closing of a raw string. */
  function RawLength(t: Bytes, hashes: nat): (n: Option<nat>)
    ensures n.Some? ==> n.value <= |t|
  {
    if t == [] then None
    else if ClosesRaw(t, hashes) then Some(1 + hashes)
    else Plus(1, RawLength(t[1..], hashes))
  }

  /** Bytes up to and including the closing quote; a backslash takes the next byte with it. */
  function StringLength(t: Bytes): (n: Option<nat>)
    ensures n.Some? ==> n.value <= |t|
  {
    if t == [] then None
    else if t[0] == QUOTE then Some(1)
    else if t[0] == BACKSLASH then if |t| == 1 then None else Plus(2, StringLength(t[2..]))
    else Plus(1, StringLength(t[1..]))
  }

  predicate HexDigit(b: byte) {
    48 <= b <= 57 || 65 <= b <= 70 || 97 <= b <= 102
  }

  predicate HexOrUnderscore(b: byte) {
    HexDigit(b) || b == 95
  }

  predicate Continuation(b: byte) {
    0x80 <= b <= 0xBF
  }

  function HexRun(t: Bytes): (n: nat)
    ensures n <= |t| && (forall i :: 0 <= i < n ==> HexOrUnderscore(t[i])) && (n < |t| ==> !HexOrUnderscore(t[n]))
  {
    if t == [] || !HexOrUnderscore(t[0]) then 0 else 1 + HexRun(t[1..])
  }

  function ContinuationRun(t: Bytes): (n: nat)
    ensures n <= |t| && (forall i :: 0 <= i < n ==> Continuation(t[i])) && (n < |t| ==> !Continuation(t[n]))
  {
    if t == [] || !Continuation(t[0]) then 0 else 1 + ContinuationRun(t[1..])
  }

  predicate ByteAt(t: Bytes, i: nat, b: byte) {
    i < |t| && t[i] == b
  }

  /** The length of the character literal at the head of `t`, or 0. Lifetimes have no closing quote. */
  function CharLength(t: Bytes): (n: nat)
    ensures n <= |t| && (n == 0 || n >= 3)
  {
    if |t| < 3 || t[0] != APOSTROPHE then 0
    else if t[1] == BACKSLASH then
      if t[2] == LOWER_U && ByteAt(t, 3, OPEN_BRACE) && HexRun(t[4..]) > 0 &&
         ByteAt(t, 4 + HexRun(t[4..]), CLOSE_BRACE) && ByteAt(t, 5 + HexRun(t[4..]), APOSTROPHE)
      then 6 + HexRun(t[4..])
      else if t[2] == LOWER_X && |t| >= 6 && HexDigit(t[3]) && HexDigit(t[4]) && t[5] == APOSTROPHE then 6
      else if t[2] != CR && t[2] != LF && ByteAt(t, 3, APOSTROPHE) then 4
      else 0
    else if 0xC0 <= t[1] <= 0xF7 then
      if 1 <= ContinuationRun(t[2..]) <= 3 && ByteAt(t, 2 + ContinuationRun(t[2..]), APOSTROPHE)
      then 3 + ContinuationRun(t[2..]) else 0
    else if t[1] != APOSTROPHE && t[1] != CR && t[1] != LF && t[1] < 0x80 && t[2] == APOSTROPHE then 3
    else 0
  }

  function Bounded(n: Option<nat>, opening: nat, error: Error): Lexeme {
    if n.None? then Unterminated(error) else Region(opening + n.value)
  }

  predicate OpensRaw(t: Bytes) {
    t != [] && t[0] == LOWER_R && ByteAt(t, 1 + HashRun(t[1..]), QUOTE)
  }

  /** The lexeme at the head of `t`. */
  function Lex(t: Bytes): (r: Lexeme)
    requires t != []
    ensures r.Region? ==> 2 <= r.size <= |t|
  {
    if Starts(t, SLASH, SLASH) then Region(2 + LineLength(t[2..]))
    else if Starts(t, SLASH, STAR) then Bounded(CommentLength(t[2..], 1), 2, UnterminatedComment)
    else if OpensRaw(t) then
      var k := HashRun(t[1..]);
      Bounded(RawLength(t[k + 2..], k), k + 2, UnterminatedRawString)
    else if t[0] == QUOTE then Bounded(StringLength(t[1..]), 1, UnterminatedString)
    else if CharLength(t) > 0 then Region(CharLength(t))
    else Code
  }

  function Blank(b: byte): byte {
    if b == LF || b == CR then b else SPACE
  }

  function BlankAll(t: Bytes): (r: Bytes)
    ensures |r| == |t| && forall i :: 0 <= i < |t| ==> r[i] == Blank(t[i])
  {
    seq(|t|, i requires 0 <= i < |t| => Blank(t[i]))
  }

  function Prepend(prefix: Bytes, rest: Masked): Masked {
    match rest case Ok(b) => Ok(prefix + b) case Invalid(e) => Invalid(e)
  }

  /** The mask of a whole source, lexeme by lexeme. */
  function Mask(t: Bytes): Masked {
    if t == [] then Ok([])
    else match Lex(t)
      case Code => Prepend([t[0]], Mask(t[1..]))
      case Region(n) => Prepend(BlankAll(t[..n]), Mask(t[n..]))
      case Unterminated(e) => Invalid(e)
  }

  /** Length and line endings stay where they are, and every other byte stays or becomes a space. */
  lemma {:induction false} MaskKeepsLayout(t: Bytes)
    requires Mask(t).Ok?
    ensures |Mask(t).bytes| == |t|
    ensures forall i :: 0 <= i < |t| ==>
      Mask(t).bytes[i] == t[i] || (Mask(t).bytes[i] == SPACE && t[i] != LF && t[i] != CR)
  {
    if t != [] {
      match Lex(t)
      case Code => MaskKeepsLayout(t[1..]);
      case Region(n) => MaskKeepsLayout(t[n..]);
    }
  }

  /** What the head of a mask reveals about the head of the source. */
  lemma MaskHead(t: Bytes)
    requires t != [] && Mask(t).Ok?
    ensures |Mask(t).bytes| == |t|
    ensures var r := Mask(t).bytes;
      if Lex(t) == Code then Mask(t[1..]).Ok? && r == [t[0]] + Mask(t[1..]).bytes
      else |t| >= 2 && r[0] == Blank(t[0]) && r[1] == Blank(t[1])
  {
    MaskKeepsLayout(t);
  }

  /** A byte of the mask that is neither a space nor a line ending is the source's own, and no region
      covers it. */
  lemma UnmaskedHead(t: Bytes)
    requires t != [] && Mask(t).Ok?
    requires var b := Mask(t).bytes; |b| > 0 && b[0] != SPACE && b[0] != LF && b[0] != CR
    ensures Lex(t) == Code && Mask(t).bytes[0] == t[0]
    ensures Mask(t[1..]).Ok? && Mask(t).bytes[1..] == Mask(t[1..]).bytes
  {
    MaskHead(t);
  }
}
