/** The pieces of JavaScript's runtime semantics the core relies on, written
    out: template-literal interpolation, rendering a non-negative integer
    `number` as text, `String.prototype.split` on one character, and
    `Array.prototype.indexOf`. */
module JsText {

  /** `text` holds `s` starting at position `at`. */
  predicate Occurs(s: string, text: string, at: int)
  {
    0 <= at && at + |s| <= |text| && text[at..at + |s|] == s
  }

  /** Two texts with different first characters cannot stand at the same
      position. */
  lemma OccursExcludes(a: string, b: string, text: string, at: int)
    requires |a| > 0 && |b| > 0 && a[0] != b[0]
    requires Occurs(a, text, at)
    ensures !Occurs(b, text, at)
  {
    assert text[at] == text[at..at + |a|][0] == a[0];
    if at + |b| <= |text| {
      assert text[at..at + |b|][0] == text[at] != b[0];
    }
  }

  // ---------------------------------------------------------------------
  // Template literals
  // ---------------------------------------------------------------------

  /** A template literal with fixed pieces `literals` and interpolated
      `values`: literals[0] values[0] literals[1] ... values[n-1] literals[n]. */
  function Render(literals: seq<string>, values: seq<string>): string
    requires |literals| == |values| + 1
    decreases |values|
  {
    if |values| == 0 then literals[0]
    else literals[0] + values[0] + Render(literals[1..], values[1..])
  }

  /** The rendered text before fixed piece `i`: pieces and values 0 to i - 1. */
  function Before(literals: seq<string>, values: seq<string>, i: nat): string
    requires |literals| == |values| + 1 && i <= |values|
    decreases i
  {
    if i == 0 then "" else literals[0] + values[0] + Before(literals[1..], values[1..], i - 1)
  }

  /** Where the `i`-th interpolated value starts in the rendered text. */
  function SlotOffset(literals: seq<string>, values: seq<string>, i: nat): nat
    requires |literals| == |values| + 1 && i < |values|
  {
    |Before(literals, values, i)| + |literals[i]|
  }

  /** The rendered text is the text before piece `i` followed by the rendering
      of the pieces and values from `i` on. */
  lemma {:induction false} RenderSplit(literals: seq<string>, values: seq<string>, i: nat)
    requires |literals| == |values| + 1 && i <= |values|
    ensures Render(literals, values) == Before(literals, values, i) + Render(literals[i..], values[i..])
    decreases i
  {
    if i == 0 {
      assert literals[0..] == literals && values[0..] == values;
    } else {
      var head := literals[0] + values[0];
      RenderSplit(literals[1..], values[1..], i - 1);
      assert literals[1..][i - 1..] == literals[i..];
      assert values[1..][i - 1..] == values[i..];
      var before', rest := Before(literals[1..], values[1..], i - 1), Render(literals[i..], values[i..]);
      assert head + (before' + rest) == (head + before') + rest;
    }
  }

  /** The rendered text around slot `i`: what comes before piece `i`, piece
      `i`, value `i`, then the rest of the template. */
  lemma RenderAt(literals: seq<string>, values: seq<string>, i: nat)
    requires |literals| == |values| + 1 && i < |values|
    ensures Render(literals, values)
         == Before(literals, values, i) + literals[i] + values[i]
            + Render(literals[i + 1..], values[i + 1..])
  {
    RenderSplit(literals, values, i);
    var L, V := literals[i..], values[i..];
    assert L[0] == literals[i] && V[0] == values[i];
    assert L[1..] == literals[i + 1..] && V[1..] == values[i + 1..];
    var b, rest := Before(literals, values, i), Render(literals[i + 1..], values[i + 1..]);
    assert b + (literals[i] + values[i] + rest) == b + literals[i] + values[i] + rest;
  }

  /** In `a + b + c`, `b` stands at `|a|` and is followed by `c`. */
  lemma OccursBetween(a: string, b: string, c: string)
    ensures Occurs(b, a + b + c, |a|)
    ensures (a + b + c)[|a|..] == b + c
  {
    assert (a + b + c)[|a|..] == b + c;
    assert (a + b + c)[|a|..|a| + |b|] == b;
  }

  /** Value `i` stands verbatim at its slot and is followed by the rest of the
      template. */
  lemma SlotHolds(literals: seq<string>, values: seq<string>, i: nat)
    requires |literals| == |values| + 1 && i < |values|
    ensures var r, at := Render(literals, values), SlotOffset(literals, values, i);
      && Occurs(values[i], r, at)
      && r[at..] == values[i] + Render(literals[i + 1..], values[i + 1..])
  {
    RenderAt(literals, values, i);
    OccursBetween(Before(literals, values, i) + literals[i], values[i],
                  Render(literals[i + 1..], values[i + 1..]));
  }

  /** When the piece before slot `i` ends with `marker`, the marker and value
      `i` stand together in the rendered text. */
  lemma MarkerBeforeSlot(literals: seq<string>, values: seq<string>, i: nat, body: string, marker: string)
    requires |literals| == |values| + 1 && i < |values|
    requires literals[i] == body + marker
    ensures |marker| <= SlotOffset(literals, values, i)
    ensures Occurs(marker + values[i], Render(literals, values), SlotOffset(literals, values, i) - |marker|)
  {
    RenderAt(literals, values, i);
    var b, rest := Before(literals, values, i), Render(literals[i + 1..], values[i + 1..]);
    assert b + (body + marker) + values[i] + rest == (b + body) + (marker + values[i]) + rest;
    OccursBetween(b + body, marker + values[i], rest);
  }

  /** The text before a piece depends only on the pieces and values before it. */
  lemma {:induction false} BeforeIgnoresLaterValues(literals: seq<string>, values: seq<string>,
                                                    others: seq<string>, i: nat)
    requires |literals| == |values| + 1 == |others| + 1 && i <= |values|
    requires values[..i] == others[..i]
    ensures Before(literals, values, i) == Before(literals, others, i)
    decreases i
  {
    if i > 0 {
      assert values[0] == values[..i][0] == others[..i][0] == others[0];
      assert values[1..][..i - 1] == values[..i][1..] == others[..i][1..] == others[1..][..i - 1];
      BeforeIgnoresLaterValues(literals[1..], values[1..], others[1..], i - 1);
    }
  }

  // ---------------------------------------------------------------------
  // Integers rendered as decimal text (`${n}` for an integral number n >= 0)
  // ---------------------------------------------------------------------

  predicate IsDigit(c: char)
  {
    '0' <= c <= '9'
  }

  predicate IsDigits(s: string)
  {
    forall k :: 0 <= k < |s| ==> IsDigit(s[k])
  }

  function DigitChar(d: nat): (c: char)
    requires d < 10
    ensures IsDigit(c)
  {
    ('0' as int + d) as char
  }

  function DigitValue(c: char): (d: nat)
    requires IsDigit(c)
    ensures d < 10
  {
    c as int - '0' as int
  }

  /** The shortest decimal text of `n`. */
  function NumberToString(n: nat): (s: string)
    ensures |s| >= 1 && IsDigits(s)
    ensures s[0] == '0' ==> n == 0
    decreases n
  {
    if n < 10 then [DigitChar(n)]
    else NumberToString(n / 10) + [DigitChar(n % 10)]
  }

  /** Reads decimal text back as a number: the inverse of NumberToString. */
  function DigitsValue(s: string): nat
    requires IsDigits(s)
    decreases |s|
  {
    if s == [] then 0
    else 10 * DigitsValue(s[..|s| - 1]) + DigitValue(s[|s| - 1])
  }

  lemma {:induction false} NumberToStringRoundTrip(n: nat)
    ensures DigitsValue(NumberToString(n)) == n
    decreases n
  {
    var s := NumberToString(n);
    if n < 10 {
      assert s[..|s| - 1] == [];
    } else {
      NumberToStringRoundTrip(n / 10);
      assert s[..|s| - 1] == NumberToString(n / 10);
    }
  }

  /** Different numbers are rendered as different texts. */
  lemma NumberToStringInjective(m: nat, n: nat)
    requires m != n
    ensures NumberToString(m) != NumberToString(n)
  {
    NumberToStringRoundTrip(m);
    NumberToStringRoundTrip(n);
  }

  // ---------------------------------------------------------------------
  // String.prototype.split with a one-character separator
  // ---------------------------------------------------------------------

  /** `s.split(sep)`: the pieces between separators, in order; the empty
      string gives one empty piece, and every separator starts a new piece. */
  function Split(s: string, sep: char): (parts: seq<string>)
    ensures |parts| >= 1
    ensures |parts| == 1 <==> sep !in s
    ensures forall k :: 0 <= k < |parts| ==> sep !in parts[k]
    decreases |s|
  {
    if |s| == 0 then [""]
    else if s[0] == sep then [""] + Split(s[1..], sep)
    else
      var rest := Split(s[1..], sep);
      [[s[0]] + rest[0]] + rest[1..]
  }

  /** `parts.join(sep)`. */
  function Join(parts: seq<string>, sep: char): string
    requires |parts| >= 1
    decreases |parts|
  {
    if |parts| == 1 then parts[0] else parts[0] + [sep] + Join(parts[1..], sep)
  }

  /** Splitting loses nothing: joining the pieces gives the text back. */
  lemma {:induction false} SplitJoin(s: string, sep: char)
    ensures Join(Split(s, sep), sep) == s
    decreases |s|
  {
    if |s| == 0 {
    } else if s[0] == sep {
      SplitJoin(s[1..], sep);
      assert ([""] + Split(s[1..], sep))[1..] == Split(s[1..], sep);
      assert s == [sep] + s[1..];
    } else {
      var rest := Split(s[1..], sep);
      SplitJoin(s[1..], sep);
      var parts := [[s[0]] + rest[0]] + rest[1..];
      assert parts[1..] == rest[1..];
      if |rest| == 1 {
        assert s == [s[0]] + s[1..];
      } else {
        assert Join(rest, sep) == rest[0] + [sep] + Join(rest[1..], sep);
        assert s == [s[0]] + s[1..];
      }
    }
  }

  /** A prefix free of the separator is glued onto the first piece. */
  lemma {:induction false} SplitAfterPlainPrefix(a: string, t: string, sep: char)
    requires sep !in a
    ensures Split(a + t, sep) == [a + Split(t, sep)[0]] + Split(t, sep)[1..]
    decreases |a|
  {
    if |a| > 0 {
      SplitAfterPlainPrefix(a[1..], t, sep);
      assert (a + t)[1..] == a[1..] + t;
      assert (a + t)[0] == a[0];
      assert [a[0]] + (a[1..] + Split(t, sep)[0]) == a + Split(t, sep)[0];
    } else {
      var parts := Split(t, sep);
      assert a + t == t && a + parts[0] == parts[0];
      assert parts == [parts[0]] + parts[1..];
    }
  }

  // ---------------------------------------------------------------------
  // Array.prototype.indexOf
  // ---------------------------------------------------------------------

  /** The position of the first `x` in `s`, or -1 when `x` does not occur. */
  function IndexOf<T(==)>(s: seq<T>, x: T): (r: int)
    ensures -1 <= r < |s|
    ensures r == -1 <==> x !in s
    ensures 0 <= r ==> s[r] == x && x !in s[..r]
    decreases |s|
  {
    if |s| == 0 then -1
    else if s[0] == x then 0
    else
      var k := IndexOf(s[1..], x);
      if k == -1 then -1 else k + 1
  }
}
