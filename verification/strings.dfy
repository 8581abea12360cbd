/** The handful of ECMAScript string operations the model relies on:
    `trim`, `indexOf` of one character, `split` on one
    character, `join`, `parseInt(s, 10)` and the decimal form of a number. */
module Strings {
  import opened Wrappers

  /** ECMAScript WhiteSpace and LineTerminator code points (what `trim` removes
      and what `parseInt` skips). */
  predicate IsJsWhitespace(c: char)
  {
    || c == ' ' || c == '\t' || c == '\n' || c == '\U{000B}' || c == '\U{000C}' || c == '\r'
    || c == '\U{00A0}' || c == '\U{1680}' || ('\U{2000}' <= c <= '\U{200A}')
    || c == '\U{2028}' || c == '\U{2029}' || c == '\U{202F}' || c == '\U{205F}'
    || c == '\U{3000}' || c == '\U{FEFF}'
  }

  predicate IsDigit(c: char)
  {
    '0' <= c <= '9'
  }

  function DigitValue(c: char): nat
    requires IsDigit(c)
  {
    (c as int) - ('0' as int)
  }

  function DigitChar(d: nat): (c: char)
    requires d < 10
    ensures IsDigit(c) && DigitValue(c) == d
  {
    ('0' as int + d) as char
  }

  /** `s` with its leading whitespace removed. */
  function TrimStart(s: string): (r: string)
    ensures |r| <= |s| && r == s[|s| - |r|..]
    ensures forall k :: 0 <= k < |s| - |r| ==> IsJsWhitespace(s[k])
    ensures r == [] || !IsJsWhitespace(r[0])
  {
    if |s| > 0 && IsJsWhitespace(s[0]) then
      var r := TrimStart(s[1..]);
      assert r == s[|s| - |r|..] by { assert s[1..][|s| - 1 - |r|..] == s[|s| - |r|..]; }
      assert forall k :: 0 < k < |s| - |r| ==> s[k] == s[1..][k - 1];
      r
    else s
  }

  /** `s` with its trailing whitespace removed. */
  function TrimEnd(s: string): (r: string)
    ensures |r| <= |s| && r == s[..|r|]
    ensures forall k :: |r| <= k < |s| ==> IsJsWhitespace(s[k])
    ensures r == [] || !IsJsWhitespace(r[|r| - 1])
  {
    if |s| > 0 && IsJsWhitespace(s[|s| - 1]) then TrimEnd(s[..|s| - 1]) else s
  }

  /** `r` stands in `s` at position `i`, with only whitespace before and after it. */
  predicate Surrounded(s: string, i: int, r: string)
  {
    && 0 <= i <= |s| - |r|
    && r == s[i..i + |r|]
    && (forall k :: 0 <= k < i ==> IsJsWhitespace(s[k]))
    && (forall k :: i + |r| <= k < |s| ==> IsJsWhitespace(s[k]))
  }

  /** `String.prototype.trim`: the slice of `s` between its leading and its
      trailing whitespace. */
  function Trim(s: string): (r: string)
    ensures |r| <= |s|
    ensures r == [] || (!IsJsWhitespace(r[0]) && !IsJsWhitespace(r[|r| - 1]))
    ensures exists i :: Surrounded(s, i, r)
  {
    var t := TrimStart(s);
    var r := TrimEnd(t);
    SurroundedOfParts(s, t, r);
    r
  }

  /** A whitespace-led text, then a whitespace-trailed prefix of its rest. */
  lemma SurroundedOfParts(s: string, t: string, r: string)
    requires |t| <= |s| && t == s[|s| - |t|..]
    requires forall k :: 0 <= k < |s| - |t| ==> IsJsWhitespace(s[k])
    requires |r| <= |t| && r == t[..|r|]
    requires forall k :: |r| <= k < |t| ==> IsJsWhitespace(t[k])
    ensures Surrounded(s, |s| - |t|, r)
  {
    var i := |s| - |t|;
    assert r == s[i..i + |r|];
    forall k | i + |r| <= k < |s|
      ensures IsJsWhitespace(s[k])
    {
      assert s[k] == t[k - i];
    }
  }

  /** A text that neither starts nor ends with whitespace is its own trim. */
  lemma TrimOfTrimmed(s: string)
    requires s == [] || (!IsJsWhitespace(s[0]) && !IsJsWhitespace(s[|s| - 1]))
    ensures Trim(s) == s
  {
    assert TrimStart(s) == s;
    assert TrimEnd(s) == s;
  }

  /** Trimming twice is trimming once. */
  lemma TrimIdempotent(s: string)
    ensures Trim(Trim(s)) == Trim(s)
  {
    TrimOfTrimmed(Trim(s));
  }

  /** `s.indexOf(c)`: the first position of `c`, or -1 when there is none. */
  function IndexOf(s: string, c: char): (r: int)
    ensures -1 <= r < |s|
    ensures r == -1 <==> c !in s
    ensures 0 <= r ==> s[r] == c && c !in s[..r]
  {
    if |s| == 0 then -1
    else if s[0] == c then 0
    else
      var k := IndexOf(s[1..], c);
      if k == -1 then -1
      else
        assert s[..k + 1] == [s[0]] + s[1..][..k];
        k + 1
  }

  /** The length of `s` in UTF-16 code units, the unit JavaScript counts string
      positions in: a code point above U+FFFF takes two. */
  function CodeUnits(s: string): (n: nat)
    ensures |s| <= n <= 2 * |s|
    ensures n == |s| <==> forall k :: 0 <= k < |s| ==> s[k] as int <= 0xFFFF
  {
    if |s| == 0 then 0
    else
      var rest := CodeUnits(s[1..]);
      assert forall k :: 0 < k < |s| ==> s[k] == s[1..][k - 1];
      (if s[0] as int > 0xFFFF then 2 else 1) + rest
  }

  /** A text of code points above U+FFFF takes two code units per character. */
  lemma {:induction false} CodeUnitsAstral(s: string)
    requires forall k :: 0 <= k < |s| ==> s[k] as int > 0xFFFF
    ensures CodeUnits(s) == 2 * |s|
    decreases |s|
  {
    if |s| > 0 {
      CodeUnitsAstral(s[1..]);
    }
  }

  /** `s.split(sep)` for a one-character separator: the maximal runs of `s`
      free of `sep`, including empty ones; `"".split(",")` is `[""]`. */
  function Split(s: string, sep: char): (r: seq<string>)
    ensures |r| >= 1
    ensures forall p :: p in r ==> sep !in p
    decreases |s|
  {
    var i := IndexOf(s, sep);
    if i == -1 then [s] else [s[..i]] + Split(s[i + 1..], sep)
  }

  /** `pieces.join(sep)`. */
  function Join(pieces: seq<string>, sep: string): string
  {
    if |pieces| == 0 then []
    else if |pieces| == 1 then pieces[0]
    else pieces[0] + sep + Join(pieces[1..], sep)
  }

  lemma JoinCons(p: string, tail: seq<string>, sep: string)
    requires |tail| >= 1
    ensures Join([p] + tail, sep) == p + sep + Join(tail, sep)
  {
    assert ([p] + tail)[1..] == tail;
  }

  lemma CutAt(s: string, i: int)
    requires 0 <= i < |s|
    ensures s == s[..i] + [s[i]] + s[i + 1..]
  {
  }

  /** A separator with none before it is the one `indexOf` finds. */
  lemma IndexOfFirst(s: string, c: char, i: int)
    requires 0 <= i < |s| && s[i] == c && c !in s[..i]
    ensures IndexOf(s, c) == i
  {
  }

  /** Joining what `Split` produced with the same separator gives the input back. */
  lemma {:induction false} JoinSplit(s: string, sep: char)
    ensures Join(Split(s, sep), [sep]) == s
    decreases |s|
  {
    var i := IndexOf(s, sep);
    if i != -1 {
      var rest := s[i + 1..];
      var tail := Split(rest, sep);
      assert Split(s, sep) == [s[..i]] + tail;
      calc {
        Join(Split(s, sep), [sep]);
        Join([s[..i]] + tail, [sep]);
        { JoinCons(s[..i], tail, [sep]); }
        s[..i] + [sep] + Join(tail, [sep]);
        { JoinSplit(rest, sep); }
        s[..i] + [sep] + rest;
        { CutAt(s, i); }
        s;
      }
    }
  }

  /** Splitting a join of separator-free pieces gives the pieces back. */
  lemma {:induction false} SplitJoin(pieces: seq<string>, sep: char)
    requires |pieces| >= 1
    requires forall k :: 0 <= k < |pieces| ==> sep !in pieces[k]
    ensures Split(Join(pieces, [sep]), sep) == pieces
    decreases |pieces|
  {
    if |pieces| > 1 {
      var head, tail := pieces[0], pieces[1..];
      var rest := Join(tail, [sep]);
      var s := head + [sep] + rest;
      assert pieces == [head] + tail;
      JoinCons(head, tail, [sep]);
      assert s[..|head|] == head;
      IndexOfFirst(s, sep, |head|);
      assert s[|head| + 1..] == rest;
      SplitJoin(tail, sep);
    }
  }

  /** `pieces.filter(v => !!v.length)`: the non-empty pieces, in order. */
  function KeepNonEmpty(pieces: seq<string>): (r: seq<string>)
    ensures |r| <= |pieces|
    ensures forall p :: p in r <==> p in pieces && p != []
  {
    if |pieces| == 0 then []
    else if pieces[0] == [] then KeepNonEmpty(pieces[1..])
    else [pieces[0]] + KeepNonEmpty(pieces[1..])
  }

  /** All pieces glued together without a separator. */
  function Concat(pieces: seq<string>): string
  {
    if |pieces| == 0 then [] else pieces[0] + Concat(pieces[1..])
  }

  /** `s` with every occurrence of `c` deleted. */
  function Without(s: string, c: char): string
  {
    if |s| == 0 then [] else (if s[0] == c then [] else [s[0]]) + Without(s[1..], c)
  }

  lemma {:induction false} WithoutAppend(a: string, b: string, c: char)
    ensures Without(a + b, c) == Without(a, c) + Without(b, c)
    decreases |a|
  {
    if |a| > 0 {
      assert (a + b)[1..] == a[1..] + b;
      WithoutAppend(a[1..], b, c);
    } else {
      assert a + b == b;
    }
  }

  lemma {:induction false} WithoutAbsent(s: string, c: char)
    requires c !in s
    ensures Without(s, c) == s
    decreases |s|
  {
    if |s| > 0 {
      WithoutAbsent(s[1..], c);
    }
  }

  lemma WithoutSeparator(rest: string, sep: char)
    ensures Without([sep] + rest, sep) == Without(rest, sep)
  {
    assert ([sep] + rest)[1..] == rest;
  }

  /** Dropping the empty pieces does not change their concatenation. */
  lemma {:induction false} ConcatKeepNonEmpty(pieces: seq<string>)
    ensures Concat(KeepNonEmpty(pieces)) == Concat(pieces)
    decreases |pieces|
  {
    if |pieces| > 0 {
      ConcatKeepNonEmpty(pieces[1..]);
      if pieces[0] != [] {
        assert ([pieces[0]] + KeepNonEmpty(pieces[1..]))[1..] == KeepNonEmpty(pieces[1..]);
      }
    }
  }

  /** The pieces of a split, glued back together, are the input minus its separators. */
  lemma {:induction false} ConcatSplit(s: string, sep: char)
    ensures Concat(Split(s, sep)) == Without(s, sep)
    decreases |s|
  {
    var i := IndexOf(s, sep);
    if i == -1 {
      WithoutAbsent(s, sep);
    } else {
      var head, rest := s[..i], s[i + 1..];
      var tail := Split(rest, sep);
      calc {
        Concat(Split(s, sep));
        Concat([head] + tail);
        { assert ([head] + tail)[1..] == tail; }
        head + Concat(tail);
        { ConcatSplit(rest, sep); }
        head + Without(rest, sep);
        { WithoutAbsent(head, sep); WithoutSeparator(rest, sep); }
        Without(head, sep) + Without([sep] + rest, sep);
        { WithoutAppend(head, [sep] + rest, sep); }
        Without(head + ([sep] + rest), sep);
        { assert s == head + ([sep] + rest); }
        Without(s, sep);
      }
    }
  }

  /** `s.split(sep).filter(v => !!v.length)`: the non-empty separator-free
      pieces of `s`, which together spell `s` without its separators. */
  function NonEmptyPieces(s: string, sep: char): (r: seq<string>)
    ensures forall p :: p in r ==> p != [] && sep !in p
    ensures Concat(r) == Without(s, sep)
  {
    ConcatKeepNonEmpty(Split(s, sep));
    ConcatSplit(s, sep);
    KeepNonEmpty(Split(s, sep))
  }

  /** Filtering keeps a list whose pieces are all non-empty as it is. */
  lemma {:induction false} KeepNonEmptyAll(pieces: seq<string>)
    requires forall k :: 0 <= k < |pieces| ==> pieces[k] != []
    ensures KeepNonEmpty(pieces) == pieces
    decreases |pieces|
  {
    if |pieces| > 0 {
      KeepNonEmptyAll(pieces[1..]);
      assert pieces == [pieces[0]] + pieces[1..];
    }
  }

  /** Filtering distributes over concatenation: it keeps the order of the
      pieces and decides each one on its own. */
  lemma {:induction false} KeepNonEmptyAppend(a: seq<string>, b: seq<string>)
    ensures KeepNonEmpty(a + b) == KeepNonEmpty(a) + KeepNonEmpty(b)
    decreases |a|
  {
    if |a| > 0 {
      assert (a + b)[0] == a[0];
      assert (a + b)[1..] == a[1..] + b;
      KeepNonEmptyAppend(a[1..], b);
    } else {
      assert a + b == b;
    }
  }

  /** One piece is kept exactly when it is not empty. */
  lemma KeepNonEmptyOne(p: string)
    ensures KeepNonEmpty([p]) == (if p == [] then [] else [p])
  {
    assert [p][1..] == [];
  }

  /** The pieces of any text joined with a separator they do not contain, empty
      ones included, come back as the non-empty ones, in their order. */
  lemma NonEmptyPiecesOfJoin(pieces: seq<string>, sep: char)
    requires forall k :: 0 <= k < |pieces| ==> sep !in pieces[k]
    ensures NonEmptyPieces(Join(pieces, [sep]), sep) == KeepNonEmpty(pieces)
  {
    if |pieces| == 0 {
      assert Split([], sep) == [[]];
      KeepNonEmptyOne([]);
    } else {
      SplitJoin(pieces, sep);
    }
  }

  /** Non-empty, separator-free pieces joined with the separator are read back
      as the same pieces. */
  lemma NonEmptyPiecesJoin(pieces: seq<string>, sep: char)
    requires |pieces| >= 1
    requires forall k :: 0 <= k < |pieces| ==> pieces[k] != [] && sep !in pieces[k]
    ensures NonEmptyPieces(Join(pieces, [sep]), sep) == pieces
  {
    SplitJoin(pieces, sep);
    KeepNonEmptyAll(pieces);
  }

  /** The longest prefix of decimal digits. */
  function DigitPrefix(s: string): (r: string)
    ensures |r| <= |s| && r == s[..|r|]
    ensures forall k :: 0 <= k < |r| ==> IsDigit(r[k])
    ensures |r| < |s| ==> !IsDigit(s[|r|])
  {
    if |s| > 0 && IsDigit(s[0]) then [s[0]] + DigitPrefix(s[1..]) else []
  }

  /** The value of a run of decimal digits, most significant first. */
  function DecimalValue(digits: string): nat
    requires forall k :: 0 <= k < |digits| ==> IsDigit(digits[k])
  {
    if |digits| == 0 then 0
    else DecimalValue(digits[..|digits| - 1]) * 10 + DigitValue(digits[|digits| - 1])
  }

  /** `parseInt(s, 10)`: leading whitespace is skipped, one optional sign is
      read, then the longest run of digits; no digit at all gives NaN (None). */
  function ParseInt(s: string): (r: Option<int>)
    ensures r.None? <==> DigitPrefix(AfterSign(TrimStart(s))) == []
  {
    var t := TrimStart(s);
    var digits := DigitPrefix(AfterSign(t));
    if |digits| == 0 then None
    else
      var v: int := DecimalValue(digits);
      if |t| > 0 && t[0] == '-' then Some(-v) else Some(v)
  }

  function AfterSign(t: string): string
  {
    if |t| > 0 && (t[0] == '-' || t[0] == '+') then t[1..] else t
  }

  /** The decimal form of a non-negative number, as `n + ''` writes it. */
  function NatToString(n: nat): (r: string)
    ensures |r| >= 1
    ensures forall k :: 0 <= k < |r| ==> IsDigit(r[k])
  {
    if n < 10 then [DigitChar(n)] else NatToString(n / 10) + [DigitChar(n % 10)]
  }

  lemma {:induction false} DecimalValueOfNatToString(n: nat)
    ensures DecimalValue(NatToString(n)) == n
  {
    if n >= 10 {
      var s := NatToString(n);
      assert s[..|s| - 1] == NatToString(n / 10);
      DecimalValueOfNatToString(n / 10);
    }
  }

  lemma {:induction false} DigitPrefixOfDigits(s: string)
    requires forall k :: 0 <= k < |s| ==> IsDigit(s[k])
    ensures DigitPrefix(s) == s
    decreases |s|
  {
    if |s| > 0 {
      DigitPrefixOfDigits(s[1..]);
    }
  }

  /** `parseInt` reads back the decimal form of every non-negative number. */
  lemma ParseIntNatToString(n: nat)
    ensures ParseInt(NatToString(n)) == Some(n)
  {
    var s := NatToString(n);
    assert IsDigit(s[0]);
    assert !IsJsWhitespace(s[0]);
    assert TrimStart(s) == s;
    assert AfterSign(s) == s;
    DigitPrefixOfDigits(s);
    assert DigitPrefix(AfterSign(TrimStart(s))) == s;
    DecimalValueOfNatToString(n);
  }
}
