/** Character classes and string measures with JavaScript's meaning:
    string lengths in UTF-16 code units, and the `\w`, `\s` and
    case-insensitive matching of a regular expression without the `u` flag. */
module Text {

  /** `String.prototype.length`: code points above U+FFFF take two UTF-16 units. */
  function Utf16Length(s: string): (n: nat)
    ensures |s| <= n <= 2 * |s|
    ensures n == |s| <==> forall i | 0 <= i < |s| :: (s[i] as int) < 0x10000
  {
    if |s| == 0 then 0
    else
      assert forall i | 1 <= i < |s| :: s[i] == s[1..][i - 1];
      (if (s[0] as int) < 0x10000 then 1 else 2) + Utf16Length(s[1..])
  }

  /** Length is additive over concatenation. */
  lemma {:induction false} Utf16Additive(a: string, b: string)
    ensures Utf16Length(a + b) == Utf16Length(a) + Utf16Length(b)
  {
    if |a| > 0 {
      assert (a + b)[0] == a[0];
      assert (a + b)[1..] == a[1..] + b;
      Utf16Additive(a[1..], b);
    } else {
      assert a + b == b;
    }
  }

  /** One character takes one code unit, or two (a surrogate pair) above U+FFFF. */
  lemma Utf16OneChar(c: char)
    ensures Utf16Length([c]) == if (c as int) < 0x10000 then 1 else 2
  {
    assert [c][1..] == [];
  }

  /** Case folding of the `i` flag without `u`: only ASCII letters fold. */
  function LowerAscii(c: char): char
  {
    if 'A' <= c <= 'Z' then (c as int + 32) as char else c
  }

  /** `\w`: `[A-Za-z0-9_]`. */
  predicate IsWordChar(c: char)
  {
    ('a' <= c <= 'z') || ('A' <= c <= 'Z') || ('0' <= c <= '9') || c == '_'
  }

  /** `\s`: the WhiteSpace and LineTerminator characters of ECMAScript. */
  predicate IsSpace(c: char)
  {
    var n := c as int;
    (0x09 <= n <= 0x0D) || n == 0x20 || n == 0xA0 || n == 0x1680
    || (0x2000 <= n <= 0x200A) || n == 0x2028 || n == 0x2029
    || n == 0x202F || n == 0x205F || n == 0x3000 || n == 0xFEFF
  }

  /** The lower-case literal `w` occurs at position `i` of `t`, ignoring ASCII case. */
  predicate LiteralAt(t: string, i: nat, w: string)
  {
    i + |w| <= |t| && forall k | 0 <= k < |w| :: LowerAscii(t[i + k]) == w[k]
  }

  /** Every character of `t[from..to]` is `\s`. */
  predicate AllSpace(t: string, from: nat, to: nat)
    requires from <= to <= |t|
  {
    forall k | from <= k < to :: IsSpace(t[k])
  }

  /** No character of `t[from..to]` is `\s`. */
  predicate NoSpace(t: string, from: nat, to: nat)
    requires from <= to <= |t|
  {
    forall k | from <= k < to :: !IsSpace(t[k])
  }
}
