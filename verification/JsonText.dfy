/** How many bytes the parts of a JSON text take (`json_bytes` in scripts/reliability_common.py: UTF-8,
    non-ASCII characters as they are). */
module JsonText {
  function CharBytes(c: char): nat {
    var n := c as int;
    if n < 0x80 then 1 else if n < 0x800 then 2 else if n < 0x10000 then 3 else 4
  }

  function Utf8Length(s: string): nat {
    if s == [] then 0 else Utf8Length(s[..|s| - 1]) + CharBytes(s[|s| - 1])
  }

  predicate Control(c: char) {
    c as int < 0x20
  }

  predicate ShortEscape(c: char) {
    var n := c as int;
    c == '\"' || c == '\\' || c == '\n' || c == '\r' || c == '\t' || n == 8 || n == 12
  }

  function EscapedBytes(c: char): nat {
    if ShortEscape(c) then 2 else if Control(c) then 6 else CharBytes(c)
  }

  /** A string between its quotation marks. */
  function EscapedLength(s: string): nat {
    if s == [] then 0 else EscapedLength(s[..|s| - 1]) + EscapedBytes(s[|s| - 1])
  }

  function Digits(n: nat): nat {
    if n < 10 then 1 else Digits(n / 10) + 1
  }

  function NumberLength(n: int): nat {
    if n < 0 then 1 + Digits(-n) else Digits(n)
  }

  function PowerOfTen(k: nat): nat {
    if k == 0 then 1 else 10 * PowerOfTen(k - 1)
  }

  lemma {:induction false} DigitsAtLeast(n: nat, k: nat)
    requires n >= PowerOfTen(k)
    ensures Digits(n) >= k + 1
  {
    if k > 0 {
      DigitsAtLeast(n / 10, k - 1);
    }
  }

  /** A control character that has no short escape takes one byte in a file name and six in JSON. */
  lemma {:induction false} ControlsEscape(s: string)
    requires forall c :: c in s ==> Control(c) && !ShortEscape(c)
    ensures Utf8Length(s) == |s| && EscapedLength(s) == 6 * |s|
  {
    if s != [] {
      var front, last := s[..|s| - 1], s[|s| - 1];
      assert last in s && forall c :: c in front ==> c in s;
      ControlsEscape(front);
    }
  }

  lemma PlainEnding(s: string, c: char)
    requires !Control(c) && !ShortEscape(c) && CharBytes(c) == 1
    ensures Utf8Length(s + [c]) == Utf8Length(s) + 1 && EscapedLength(s + [c]) == EscapedLength(s) + 1
  {
    assert (s + [c])[..|s|] == s;
  }

  lemma MarkdownEnding(s: string)
    ensures Utf8Length(s + ".md") == Utf8Length(s) + 3 && EscapedLength(s + ".md") == EscapedLength(s) + 3
  {
    PlainEnding(s, '.');
    PlainEnding(s + ['.'], 'm');
    PlainEnding(s + ['.'] + ['m'], 'd');
    assert s + ".md" == s + ['.'] + ['m'] + ['d'];
  }
}
