/**
 * Decimal text of non-negative integers, as Python's `f"{n}"` / `str(n)` writes them:
 * the ids of SSE events, the ids of the Game of Life cells, the chat task counter and
 * the `content-length` header all go through it.
 */
module Decimal {
  import opened Wrappers

  predicate IsDigit(c: char) {
    '0' <= c <= '9'
  }

  function DigitChar(d: nat): (c: char)
    requires d < 10
    ensures IsDigit(c)
  {
    ('0' as int + d) as char
  }

  function DigitValue(c: char): (d: nat)
    requires IsDigit(c)
    ensures d < 10 && DigitChar(d) == c
  {
    (c as int - '0' as int)
  }

  /** The canonical form: only digits, and no leading zero except for "0" itself. */
  predicate Canonical(s: string) {
    && |s| > 0
    && (forall k | 0 <= k < |s| :: IsDigit(s[k]))
    && (s[0] == '0' ==> |s| == 1)
  }

  /** `str(n)` for a non-negative `n`. */
  function Show(n: nat): (s: string)
    ensures Canonical(s)
    ensures |s| == 1 <==> n < 10
    decreases n
  {
    if n < 10 then [DigitChar(n)] else Show(n / 10) + [DigitChar(n % 10)]
  }

  /** Reads a non-empty string of digits (leading zeros allowed); None for anything else. */
  function Parse(s: string): (r: Option<nat>)
    ensures r.Some? <==> |s| > 0 && forall k | 0 <= k < |s| :: IsDigit(s[k])
    decreases |s|
  {
    if |s| == 0 || !IsDigit(s[|s| - 1]) then None
    else if |s| == 1 then Some(DigitValue(s[0]))
    else match Parse(s[..|s| - 1])
      case None => None
      case Some(v) => Some(v * 10 + DigitValue(s[|s| - 1]))
  }

  /** Reading back the text `Show` writes gives the number back. */
  lemma {:induction false} ParseShow(n: nat)
    ensures Parse(Show(n)) == Some(n)
    decreases n
  {
    if n >= 10 {
      var s := Show(n);
      assert s[..|s| - 1] == Show(n / 10);
      ParseShow(n / 10);
    }
  }

  /** A canonical string is the one `Show` writes for the number it denotes. */
  lemma {:induction false} ShowParse(s: string)
    requires Canonical(s)
    ensures Parse(s).Some? && Show(Parse(s).value) == s
    decreases |s|
  {
    if |s| > 1 {
      var init, last := s[..|s| - 1], s[|s| - 1];
      assert Canonical(init) by {
        assert init[0] == s[0];
      }
      ShowParse(init);
      assert Parse(init).value >= 1 by {
        assert Show(0) == "0";
        assert init[0] == s[0] != '0';
      }
      ParseAppend(s, Parse(init).value);
      AppendDigit(Parse(init).value, DigitValue(last));
      assert s == init + [last];
    }
  }

  /** Reading one more digit multiplies what was read by ten and adds the digit. */
  lemma ParseAppend(s: string, v: nat)
    requires |s| > 1 && IsDigit(s[|s| - 1]) && Parse(s[..|s| - 1]) == Some(v)
    ensures Parse(s) == Some(v * 10 + DigitValue(s[|s| - 1]))
  {
  }

  /** Appending digit `d` to the text of `v` >= 1 writes `v * 10 + d`. */
  lemma AppendDigit(v: nat, d: nat)
    requires v >= 1 && d < 10
    ensures Show(v * 10 + d) == Show(v) + [DigitChar(d)]
  {
    var n := v * 10 + d;
    assert n / 10 == v && n % 10 == d;
  }
}
