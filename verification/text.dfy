/**
 The string operations both engine handlers rely on, with the semantics of
 their JavaScript counterparts: `s.split(' ')`, the inverse joining with one
 space and `s.slice(i, j)` for non-negative indices; and the decimal digits the
 model spells a search budget with.
 */
module Text {

  const Space: char := ' '

  /** The position of the first space of `s`. */
  function SpaceIndex(s: string): (i: nat)
    requires Space in s
    ensures i < |s| && s[i] == Space && Space !in s[..i]
    decreases |s|
  {
    if s[0] == Space then 0
    else
      var j := SpaceIndex(s[1..]);
      assert s[..j + 1] == [s[0]] + s[1..][..j];
      j + 1
  }

  /** JavaScript `s.split(' ')`: the pieces between single spaces. Two adjacent
      spaces give an empty piece, and the result is never empty (`"".split(' ')`
      is `[""]`). */
  function Split(s: string): (r: seq<string>)
    ensures |r| >= 1
    decreases |s|
  {
    if Space !in s then [s]
    else
      var i := SpaceIndex(s);
      [s[..i]] + Split(s[i + 1..])
  }

  /** `parts.join(' ')`. */
  function Join(parts: seq<string>): string
    decreases |parts|
  {
    if |parts| == 0 then []
    else if |parts| == 1 then parts[0]
    else parts[0] + [Space] + Join(parts[1..])
  }

  /** No piece of a split holds a space. */
  lemma {:induction false} SplitPiecesSpaceFree(s: string)
    ensures forall i :: 0 <= i < |Split(s)| ==> Space !in Split(s)[i]
    decreases |s|
  {
    if Space in s {
      var i := SpaceIndex(s);
      SplitPiecesSpaceFree(s[i + 1..]);
    }
  }

  /** Every character of every piece of a split occurs in the string. */
  lemma {:induction false} SplitPiecesFrom(s: string)
    ensures forall i, c :: 0 <= i < |Split(s)| && c in Split(s)[i] ==> c in s
    decreases |s|
  {
    if Space in s {
      var i := SpaceIndex(s);
      SplitPiecesFrom(s[i + 1..]);
      assert s == s[..i] + [Space] + s[i + 1..];
    }
  }

  /** Joining the pieces of a split gives the string back. */
  lemma {:induction false} JoinSplit(s: string)
    ensures Join(Split(s)) == s
    decreases |s|
  {
    if Space in s {
      var i := SpaceIndex(s);
      var head, tail := s[..i], s[i + 1..];
      SplitAtFirstSpace(s, i);
      JoinSplit(tail);
      JoinCons(head, Split(tail));
    }
  }

  /** A string with a space is its first piece, the space, and the rest,
      and splits accordingly. */
  lemma SplitAtFirstSpace(s: string, i: nat)
    requires Space in s && i == SpaceIndex(s)
    ensures s == s[..i] + [Space] + s[i + 1..]
    ensures Split(s) == [s[..i]] + Split(s[i + 1..])
  {
  }

  /** Joining a piece in front of a non-empty list puts one space after it. */
  lemma JoinCons(a: string, rest: seq<string>)
    requires |rest| >= 1
    ensures Join([a] + rest) == a + [Space] + Join(rest)
  {
    assert ([a] + rest)[1..] == rest;
  }

  /** A string without a space splits into itself alone. */
  lemma SplitNoSpace(s: string)
    requires Space !in s
    ensures Split(s) == [s]
  {
  }

  /** The pieces of a line that starts with the space-free word `k` followed by
      a space: `k`, then the pieces of the remainder. */
  lemma SplitAfterToken(k: string, rest: string)
    requires Space !in k
    ensures Split(k + [Space] + rest) == [k] + Split(rest)
  {
    var s := k + [Space] + rest;
    assert s[|k|] == Space;
    var i := SpaceIndex(s);
    assert i == |k|;
    assert s[..i] == k;
    assert s[i + 1..] == rest;
  }

  /** Splitting at one space distributes over the two sides. */
  lemma {:induction false} SplitConcat(a: string, b: string)
    ensures Split(a + [Space] + b) == Split(a) + Split(b)
    decreases |a|, 1
  {
    if Space !in a {
      SplitAfterToken(a, b);
    } else {
      SplitConcatSpaced(a, b);
    }
  }

  /** The step of SplitConcat when `a` holds a space: peel off its first
      piece and split the rest. */
  lemma {:induction false} SplitConcatSpaced(a: string, b: string)
    requires Space in a
    ensures Split(a + [Space] + b) == Split(a) + Split(b)
    decreases |a|, 0
  {
    var i := SpaceIndex(a);
    var head, tail := a[..i], a[i + 1..];
    var rest := Split(tail);
    assert Split(a) == [head] + rest;
    SplitThroughFirstSpace(a, b);
    SplitConcat(tail, b);
    ConcatAssoc([head], rest, Split(b));
  }

  /** When `a` holds a space, the first piece of `a + " " + b` is the first
      piece of `a`. */
  lemma SplitThroughFirstSpace(a: string, b: string)
    requires Space in a
    ensures Split(a + [Space] + b)
         == [a[..SpaceIndex(a)]] + Split(a[SpaceIndex(a) + 1..] + [Space] + b)
  {
    var i := SpaceIndex(a);
    var head, tail := a[..i], a[i + 1..];
    assert a + [Space] + b == head + [Space] + (tail + [Space] + b);
    SplitAfterToken(head, tail + [Space] + b);
  }

  lemma ConcatAssoc<T>(p: seq<T>, q: seq<T>, r: seq<T>)
    ensures p + (q + r) == (p + q) + r
  {
  }

  /** Splitting the join of space-free pieces gives the pieces back: together
      with JoinSplit, `split(' ')` and `join(' ')` are inverse bijections between
      strings and non-empty sequences of space-free strings. */
  lemma {:induction false} SplitJoin(parts: seq<string>)
    requires |parts| >= 1
    requires forall i :: 0 <= i < |parts| ==> Space !in parts[i]
    ensures Split(Join(parts)) == parts
    decreases |parts|
  {
    if |parts| > 1 {
      SplitJoin(parts[1..]);
      SplitAfterToken(parts[0], Join(parts[1..]));
      assert parts == [parts[0]] + parts[1..];
    }
  }

  /** `line` begins with the word `k` standing on its own: either the line is
      exactly `k`, or `k` is followed by a space. */
  predicate StartsWithToken(line: string, k: string)
  {
    line == k || k + [Space] <= line
  }

  /** The first piece of a split is the longest space-free prefix. */
  lemma FirstPieceShape(s: string)
    ensures Split(s)[0] <= s
    ensures Space !in Split(s)[0]
    ensures Split(s)[0] == s || s[|Split(s)[0]|] == Space
  {
  }

  /** For a word `k` without spaces, the first piece of the split is `k` exactly
      when the line starts with `k` as a word. */
  lemma FirstPieceIs(line: string, k: string)
    requires Space !in k
    ensures Split(line)[0] == k <==> StartsWithToken(line, k)
  {
    FirstPieceShape(line);
    if k + [Space] <= line {
      var b := line[|k| + 1..];
      assert line == k + [Space] + b;
      SplitAfterToken(k, b);
    }
    if Split(line)[0] == k && line != k {
      assert line[..|k| + 1] == k + [Space];
    }
  }

  /** JavaScript `s.slice(start, end)` for non-negative indices: both indices
      are clamped to the length, and a reversed range is empty. */
  function Slice(s: string, start: nat, end: nat): (r: string)
    ensures |r| == if end <= start || |s| <= start then 0
                   else (if end <= |s| then end else |s|) - start
    ensures forall i :: 0 <= i < |r| ==> start + i < |s| && r[i] == s[start + i]
  {
    var from := if start <= |s| then start else |s|;
    var to := if end <= |s| then end else |s|;
    if from < to then s[from..to] else []
  }

  /** A move of at least four characters is cut into two two-character
      squares that together are its first four characters. */
  lemma SliceSquares(x: string)
    requires |x| >= 4
    ensures |Slice(x, 0, 2)| == 2 && |Slice(x, 2, 4)| == 2
    ensures Slice(x, 0, 2) + Slice(x, 2, 4) == x[..4]
  {
  }

  /** Decimal digit characters. */
  predicate IsDigit(c: char)
  {
    '0' <= c <= '9'
  }

  predicate IsDecimal(s: string)
  {
    |s| >= 1 && forall i :: 0 <= i < |s| ==> IsDigit(s[i])
  }

  function DigitChar(d: nat): (c: char)
    requires d < 10
    ensures IsDigit(c) && c as int - '0' as int == d
  {
    ('0' as int + d) as char
  }

  /** The decimal digits of a number of milliseconds. The engines post their
      budgets as fixed text; `Render` spells a `GoMovetime` budget with these
      digits, and `SearchText` shows that it gives that text. */
  function Decimal(n: nat): (r: string)
    ensures IsDecimal(r)
    ensures r[0] == '0' ==> n == 0
    decreases n
  {
    if n < 10 then [DigitChar(n)]
    else Decimal(n / 10) + [DigitChar(n % 10)]
  }

  /** The value of a string of decimal digits. */
  function DecimalValue(s: string): nat
    requires forall i :: 0 <= i < |s| ==> IsDigit(s[i])
    decreases |s|
  {
    if s == [] then 0
    else
      var d := s[|s| - 1] as int - '0' as int;
      assert IsDigit(s[|s| - 1]);
      DecimalValue(s[..|s| - 1]) * 10 + d
  }

  /** Reading back a rendered number gives the number. */
  lemma {:induction false} DecimalRoundTrip(n: nat)
    ensures DecimalValue(Decimal(n)) == n
    decreases n
  {
    if n >= 10 {
      DecimalRoundTrip(n / 10);
      var s := Decimal(n);
      assert s[..|s| - 1] == Decimal(n / 10);
    }
  }
}
