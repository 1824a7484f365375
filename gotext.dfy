/**
 * The parts of Go's `strings` and `strconv` packages the client relies on,
 * restricted to the forms it calls them in.
 */
module GoText {
  import opened FtpsErrors

  newtype byte = x: int | 0 <= x < 256

  const Two63: int := 0x8000_0000_0000_0000
  const Two64: int := 0x1_0000_0000_0000_0000

  function Min(a: int, b: int): int { if a <= b then a else b }

  /** Number of occurrences of `c` in `s`. */
  function Count(s: string, c: char): nat
  {
    if |s| == 0 then 0 else (if s[0] == c then 1 else 0) + Count(s[1..], c)
  }

  /** Occurrences add up over a concatenation. */
  lemma {:induction false} CountAppend(a: string, b: string, c: char)
    ensures Count(a + b, c) == Count(a, c) + Count(b, c)
    decreases |a|
  {
    if |a| > 0 {
      assert (a + b)[1..] == a[1..] + b;
      CountAppend(a[1..], b, c);
    } else {
      assert a + b == b;
    }
  }

  /** A character occurs zero times exactly when it is absent. */
  lemma {:induction false} CountZero(s: string, c: char)
    ensures Count(s, c) == 0 <==> c !in s
    decreases |s|
  {
    if |s| > 0 {
      CountZero(s[1..], c);
      assert s == [s[0]] + s[1..];
    }
  }

  /** strings.Index with a one-character pattern: the first position of `c`, or -1. */
  function IndexOf(s: string, c: char): (r: int)
    ensures -1 <= r < |s|
    ensures r == -1 <==> c !in s
    ensures 0 <= r ==> s[r] == c
  {
    if |s| == 0 then -1
    else if s[0] == c then 0
    else
      var k := IndexOf(s[1..], c);
      assert s == [s[0]] + s[1..];
      if k == -1 then -1 else k + 1
  }

  /** strings.LastIndex with a one-character pattern: the last position of `c`, or -1. */
  function LastIndexOf(s: string, c: char): (r: int)
    ensures -1 <= r < |s|
    ensures r == -1 <==> c !in s
    ensures 0 <= r ==> s[r] == c
    decreases |s|
  {
    if |s| == 0 then -1
    else if s[|s| - 1] == c then |s| - 1
    else
      var init := s[..|s| - 1];
      var k := LastIndexOf(init, c);
      assert s == init + [s[|s| - 1]];
      k
  }

  /** Nothing after the position LastIndexOf returns is `c`. */
  lemma {:induction false} LastIndexOfLast(s: string, c: char)
    requires LastIndexOf(s, c) >= 0
    ensures c !in s[LastIndexOf(s, c) + 1..]
    decreases |s|
  {
    if s[|s| - 1] != c {
      var init := s[..|s| - 1];
      var k := LastIndexOf(init, c);
      LastIndexOfLast(init, c);
      assert s[k + 1..] == init[k + 1..] + [s[|s| - 1]];
    }
  }

  /** `sub` occurs in `s` starting at position `i`. */
  predicate OccursAt(s: string, sub: string, i: int)
  {
    0 <= i && i + |sub| <= |s| && s[i..i + |sub|] == sub
  }

  /** The last position at or below `i` where `sub` occurs, or -1. */
  function LastMatchFrom(s: string, sub: string, i: int): (r: int)
    requires |sub| <= |s| && -1 <= i <= |s| - |sub|
    ensures -1 <= r <= i
    ensures r >= 0 ==> OccursAt(s, sub, r)
    ensures forall j :: r < j <= i ==> !OccursAt(s, sub, j)
    decreases i + 1
  {
    if i < 0 then -1
    else if s[i..i + |sub|] == sub then i
    else LastMatchFrom(s, sub, i - 1)
  }

  /** strings.LastIndex with a string pattern: the last position where `sub` starts, or -1. */
  function LastIndexOfString(s: string, sub: string): (r: int)
    ensures -1 <= r <= |s|
    ensures r >= 0 ==> OccursAt(s, sub, r)
    ensures forall j :: r < j <= |s| ==> !OccursAt(s, sub, j)
  {
    if |sub| > |s| then -1 else LastMatchFrom(s, sub, |s| - |sub|)
  }

  /** The inverse of splitting: the parts with `c` between consecutive ones. */
  function Join(parts: seq<string>, c: char): string
  {
    if |parts| == 0 then ""
    else if |parts| == 1 then parts[0]
    else parts[0] + [c] + Join(parts[1..], c)
  }

  /** strings.Split with a one-character separator: every occurrence splits. */
  function Split(s: string, c: char): seq<string>
    decreases |s|
  {
    var i := IndexOf(s, c);
    if i < 0 then [s] else [s[..i]] + Split(s[i + 1..], c)
  }

  /**
   * strings.SplitN with a one-character separator: only the first n - 1
   * separators split, so the last of at most n parts is the unsplit rest.
   */
  function SplitN(s: string, c: char, n: nat): (r: seq<string>)
    ensures n == 0 ==> r == []
    ensures n >= 1 ==> 1 <= |r| <= n
  {
    var parts := Split(s, c);
    if n == 0 then []
    else if |parts| <= n then parts
    else parts[..n - 1] + [Join(parts[n - 1..], c)]
  }

  /** Cutting `s` at an occurrence of `c` at position `i`. */
  lemma CountAround(s: string, c: char, i: int)
    requires 0 <= i < |s| && s[i] == c
    ensures s == s[..i] + [c] + s[i + 1..]
    ensures Count(s, c) == Count(s[..i], c) + 1 + Count(s[i + 1..], c)
  {
    assert s == s[..i] + [c] + s[i + 1..];
    CountAppend(s[..i] + [c], s[i + 1..], c);
    CountAppend(s[..i], [c], c);
    assert Count([c], c) == 1 by { assert [c][1..] == []; }
  }

  /** Split yields one part more than there are separators. */
  lemma {:induction false} SplitLength(s: string, c: char)
    ensures |Split(s, c)| == Count(s, c) + 1
    decreases |s|
  {
    var i := IndexOf(s, c);
    if i >= 0 {
      CountAround(s, c, i);
      IndexOfFirst(s, c);
      CountZero(s[..i], c);
      SplitLength(s[i + 1..], c);
    } else {
      CountZero(s, c);
    }
  }

  /** Joining the parts of Split gives the input back. */
  lemma {:induction false} SplitJoin(s: string, c: char)
    ensures Join(Split(s, c), c) == s
    decreases |s|
  {
    var i := IndexOf(s, c);
    if i >= 0 {
      SplitJoin(s[i + 1..], c);
      SplitJoinStep(s, c);
    }
  }

  /** One step of SplitJoin: the first part, the separator, then the rest joined back. */
  lemma SplitJoinStep(s: string, c: char)
    requires IndexOf(s, c) >= 0
    requires Join(Split(s[IndexOf(s, c) + 1..], c), c) == s[IndexOf(s, c) + 1..]
    ensures Join(Split(s, c), c) == s
  {
    var i := IndexOf(s, c);
    var rest := s[i + 1..];
    SplitNonEmpty(rest, c);
    JoinCons(s[..i], Split(rest, c), c);
    CountAround(s, c, i);
  }

  /** Joining a part in front of at least one more. */
  lemma JoinCons(h: string, t: seq<string>, c: char)
    requires |t| >= 1
    ensures Join([h] + t, c) == h + [c] + Join(t, c)
  {
    assert ([h] + t)[1..] == t;
  }

  /** Split never yields an empty sequence of parts. */
  lemma SplitNonEmpty(s: string, c: char)
    ensures |Split(s, c)| >= 1
  {
  }

  /** No part yielded by Split contains the separator. */
  lemma {:induction false} SplitFree(s: string, c: char)
    ensures forall k :: 0 <= k < |Split(s, c)| ==> c !in Split(s, c)[k]
    decreases |s|
  {
    var i := IndexOf(s, c);
    if i >= 0 {
      var rest := s[i + 1..];
      IndexOfFirst(s, c);
      SplitFree(rest, c);
      var p := Split(s, c);
      assert p[1..] == Split(rest, c);
      forall k | 0 <= k < |p| ensures c !in p[k] {
        if k > 0 { assert p[k] == Split(rest, c)[k - 1]; }
      }
    }
  }

  /** Joining splits at any inner boundary `k`. */
  lemma {:induction false} JoinAt(parts: seq<string>, c: char, k: nat)
    requires 0 < k < |parts|
    ensures Join(parts, c) == Join(parts[..k], c) + [c] + Join(parts[k..], c)
    decreases k
  {
    if k > 1 {
      JoinAt(parts[1..], c, k - 1);
      assert parts[1..][..k - 1] == parts[..k][1..];
      assert parts[1..][k - 1..] == parts[k..];
    }
  }

  /** Joining with one more part at the end. */
  lemma JoinSnoc(parts: seq<string>, x: string, c: char)
    requires |parts| >= 1
    ensures Join(parts + [x], c) == Join(parts, c) + [c] + x
  {
    var q := parts + [x];
    JoinAt(q, c, |parts|);
    assert q[..|parts|] == parts;
    assert q[|parts|..] == [x];
  }

  /** Nothing before the position IndexOf returns is `c`. */
  lemma {:induction false} IndexOfFirst(s: string, c: char)
    requires IndexOf(s, c) >= 0
    ensures c !in s[..IndexOf(s, c)]
    decreases |s|
  {
    if s[0] != c {
      IndexOfFirst(s[1..], c);
      assert s[..IndexOf(s, c)] == [s[0]] + s[1..][..IndexOf(s[1..], c)];
    }
  }

  /** The first separator of `a + [c] + b` is the one after `a` when `a` holds none. */
  lemma {:induction false} IndexOfAppend(a: string, c: char, b: string)
    requires c !in a
    ensures IndexOf(a + [c] + b, c) == |a|
    decreases |a|
  {
    if |a| > 0 {
      assert (a + [c] + b)[1..] == a[1..] + [c] + b;
      IndexOfAppend(a[1..], c, b);
    }
  }

  /** The last `c` of `a + [c] + b` is the one after `a` when `b` holds none. */
  lemma {:induction false} LastIndexOfAppend(a: string, c: char, b: string)
    requires c !in b
    ensures LastIndexOf(a + [c] + b, c) == |a|
    decreases |b|
  {
    var s := a + [c] + b;
    if |b| > 0 {
      var shorter := b[..|b| - 1];
      assert s[..|s| - 1] == a + [c] + shorter;
      assert s[|s| - 1] == b[|b| - 1];
      LastIndexOfAppend(a, c, shorter);
    } else {
      assert s[|s| - 1] == c;
    }
  }

  /**
   * In `pre + [open] + inner + [close] + post`, with no `open` in `pre` and no
   * `close` in `post`, the first `open` and the last `close` enclose `inner`.
   */
  lemma Enclosed(pre: string, open: char, inner: string, close: char, post: string)
    requires open !in pre && close !in post
    ensures var m := pre + [open] + inner + [close] + post;
      && IndexOf(m, open) == |pre|
      && LastIndexOf(m, close) == |pre| + 1 + |inner|
      && m[|pre| + 1..|pre| + 1 + |inner|] == inner
  {
    var rest := inner + [close] + post;
    AppendAssoc(pre + [open], inner, [close], post);
    IndexOfAppend(pre, open, rest);
    LastIndexOfAppend(pre + [open] + inner, close, post);
    SliceOfAppend(pre + [open], inner, [close] + post);
    AppendAssoc(pre + [open], inner, [close], post);
  }

  lemma AppendAssoc<T>(a: seq<T>, b: seq<T>, c: seq<T>, d: seq<T>)
    ensures a + b + c + d == a + (b + c + d)
    ensures a + b + c + d == a + b + (c + d)
  {
  }

  lemma SliceOfAppend<T>(a: seq<T>, b: seq<T>, c: seq<T>)
    ensures (a + b + c)[|a|..|a| + |b|] == b
  {
  }

  /** A string without the separator splits into itself alone. */
  lemma SplitWithout(s: string, c: char)
    requires c !in s
    ensures Split(s, c) == [s]
  {
  }

  /** Splitting a join peels off a first part that holds no separator. */
  lemma SplitOfJoinStep(parts: seq<string>, c: char)
    requires |parts| > 1 && c !in parts[0]
    ensures Split(Join(parts, c), c) == [parts[0]] + Split(Join(parts[1..], c), c)
  {
    var s := Join(parts, c);
    var rest := Join(parts[1..], c);
    assert s == parts[0] + [c] + rest;
    assert s[..|parts[0]|] == parts[0];
    assert s[|parts[0]| + 1..] == rest;
    IndexOfAppend(parts[0], c, rest);
  }

  /** SplitOfJoinStep for parts given as a prefix and a last part. */
  lemma SplitOfJoinSnocStep(init: seq<string>, last: string, c: char)
    requires |init| > 0 && c !in init[0]
    ensures Split(Join(init + [last], c), c) == [init[0]] + Split(Join(init[1..] + [last], c), c)
  {
    var parts := init + [last];
    assert parts[0] == init[0];
    assert parts[1..] == init[1..] + [last];
    SplitOfJoinStep(parts, c);
  }

  lemma ConsAssoc<T>(h: T, tail: seq<T>, init: seq<T>, x: seq<T>)
    requires init == [h] + tail
    ensures [h] + (tail + x) == init + x
  {
  }

  /** Splitting a join splits every part but the last, which may hold separators. */
  lemma {:induction false} SplitOfJoinLast(init: seq<string>, last: string, c: char)
    requires forall k :: 0 <= k < |init| ==> c !in init[k]
    ensures Split(Join(init + [last], c), c) == init + Split(last, c)
    decreases |init|
  {
    if |init| > 0 {
      var tail := init[1..];
      assert Split(Join(init + [last], c), c) == [init[0]] + Split(Join(tail + [last], c), c) by {
        SplitOfJoinSnocStep(init, last, c);
      }
      assert Split(Join(tail + [last], c), c) == tail + Split(last, c) by {
        forall k | 0 <= k < |tail| ensures c !in tail[k] {
          assert tail[k] == init[k + 1];
        }
        SplitOfJoinLast(tail, last, c);
      }
      ConsAssoc(init[0], tail, init, Split(last, c));
    } else {
      assert init + [last] == [last];
    }
  }

  /** SplitN yields min(n, occurrences + 1) parts. */
  lemma SplitNLength(s: string, c: char, n: nat)
    requires n >= 1
    ensures |SplitN(s, c, n)| == Min(n, Count(s, c) + 1)
  {
    var parts := Split(s, c);
    assert |parts| == Count(s, c) + 1 by {
      SplitLength(s, c);
    }
    if |parts| > n {
      assert SplitN(s, c, n) == parts[..n - 1] + [Join(parts[n - 1..], c)];
    }
  }

  /** Joining the parts of SplitN gives the input back. */
  lemma JoinOfSplitN(s: string, c: char, n: nat)
    requires n >= 1
    ensures Join(SplitN(s, c, n), c) == s
  {
    var parts := Split(s, c);
    SplitJoin(s, c);
    if |parts| > n {
      if n == 1 {
        assert parts[0..] == parts;
      } else {
        JoinAt(parts, c, n - 1);
        JoinSnoc(parts[..n - 1], Join(parts[n - 1..], c), c);
      }
    }
  }

  /** Only the last part of SplitN may contain the separator. */
  lemma SplitNPartsFree(s: string, c: char, n: nat)
    ensures forall k :: 0 <= k < |SplitN(s, c, n)| - 1 ==> c !in SplitN(s, c, n)[k]
  {
    SplitFree(s, c);
  }

  /** SplitN into n parts undoes joining n parts when none but the last contains the separator. */
  lemma SplitNOfJoin(init: seq<string>, last: string, c: char)
    requires forall k :: 0 <= k < |init| ==> c !in init[k]
    ensures SplitN(Join(init + [last], c), c, |init| + 1) == init + [last]
  {
    var m := |init| + 1;
    var tailParts := Split(last, c);
    SplitOfJoinLast(init, last, c);
    SplitJoin(last, c);
    var all := Split(Join(init + [last], c), c);
    assert all == init + tailParts;
    if |all| <= m {
      assert |tailParts| == 1;
      assert tailParts == [Join(tailParts, c)];
    } else {
      assert all[..m - 1] == init;
      assert all[m - 1..] == tailParts;
    }
  }

  /** strings.TrimRight: drop the trailing characters that belong to `cutset`. */
  function TrimRight(s: string, cutset: string): (r: string)
    ensures r <= s
    ensures |r| == 0 || r[|r| - 1] !in cutset
    ensures forall k :: |r| <= k < |s| ==> s[k] in cutset
  {
    if |s| > 0 && s[|s| - 1] in cutset then TrimRight(s[..|s| - 1], cutset) else s
  }

  predicate IsDigit(ch: char) { '0' <= ch <= '9' }

  predicate AllDigits(s: string) { forall k :: 0 <= k < |s| ==> IsDigit(s[k]) }

  function DigitValue(ch: char): nat
    requires IsDigit(ch)
  {
    (ch as int) - ('0' as int)
  }

  function DigitChar(d: nat): char
    requires d < 10
  {
    (('0' as int) + d) as char
  }

  /** The number a string of decimal digits denotes. */
  function DecimalValue(s: string): nat
    requires AllDigits(s)
  {
    if |s| == 0 then 0 else DecimalValue(s[..|s| - 1]) * 10 + DigitValue(s[|s| - 1])
  }

  /** The shortest decimal spelling of `n` (strconv.Itoa of a non-negative number). */
  function Decimal(n: nat): (r: string)
    ensures |r| > 0 && AllDigits(r)
  {
    if n < 10 then [DigitChar(n)] else Decimal(n / 10) + [DigitChar(n % 10)]
  }

  /** Reading back the decimal spelling gives the number. */
  lemma {:induction false} DecimalValueOfDecimal(n: nat)
    ensures DecimalValue(Decimal(n)) == n
  {
    if n >= 10 {
      DecimalValueOfDecimal(n / 10);
      var s := Decimal(n);
      assert s[..|s| - 1] == Decimal(n / 10);
    }
  }

  /**
   * strconv.ParseUint(s, 10, 64).  The digits are read from the left; the
   * first character that is not a digit is a syntax error, and the first digit
   * that takes the value to 2^64 or beyond is a range error, whichever comes
   * first.  The empty string is a syntax error.
   */
  function ParseUint64(s: string): (r: Result<nat>)
    ensures r.Ok? ==> r.value < Two64
    ensures r.Err? ==> r.error == NumSyntax || r.error == NumRange
  {
    if |s| == 0 then Err(NumSyntax) else ScanUint64(s, 0, 0)
  }

  /** The scan of ParseUint64 from position `i`, with `n` the value read so far. */
  function ScanUint64(s: string, i: nat, n: nat): (r: Result<nat>)
    requires i <= |s| && n < Two64
    ensures r.Ok? ==> r.value < Two64
    ensures r.Err? ==> r.error == NumSyntax || r.error == NumRange
    decreases |s| - i
  {
    if i == |s| then Ok(n)
    else if !IsDigit(s[i]) then Err(NumSyntax)
    else if n * 10 + DigitValue(s[i]) >= Two64 then Err(NumRange)
    else ScanUint64(s, i + 1, n * 10 + DigitValue(s[i]))
  }

  /** The value of a digit prefix one digit longer. */
  lemma DecimalValueSnoc(s: string, i: nat)
    requires i < |s| && AllDigits(s[..i + 1])
    ensures AllDigits(s[..i]) && DecimalValue(s[..i + 1]) == DecimalValue(s[..i]) * 10 + DigitValue(s[i])
  {
    assert s[..i + 1][..i] == s[..i];
  }

  /**
   * Across a run of digits from `i` to `j`, the scan either reaches `j` with
   * the value of the prefix, or stops at the first digit that overflows.
   */
  lemma {:induction false} ScanOfDigits(s: string, i: nat, j: nat)
    requires i <= j <= |s| && AllDigits(s[..j])
    requires AllDigits(s[..i]) && DecimalValue(s[..i]) < Two64
    ensures DecimalValue(s[..j]) < Two64 ==> ScanUint64(s, i, DecimalValue(s[..i])) == ScanUint64(s, j, DecimalValue(s[..j]))
    ensures DecimalValue(s[..j]) >= Two64 ==> ScanUint64(s, i, DecimalValue(s[..i])) == Err(NumRange)
    decreases j - i
  {
    if i < j {
      assert s[..j][..i + 1] == s[..i + 1];
      assert s[i] == s[..j][i];
      DecimalValueSnoc(s, i);
      PrefixValueBelow(s, i + 1, j);
      if DecimalValue(s[..i + 1]) < Two64 {
        ScanOfDigits(s, i + 1, j);
      }
    }
  }

  /** A longer digit prefix never has a smaller value. */
  lemma {:induction false} PrefixValueBelow(s: string, i: nat, j: nat)
    requires i <= j <= |s| && AllDigits(s[..j])
    ensures AllDigits(s[..i]) && DecimalValue(s[..i]) <= DecimalValue(s[..j])
    decreases j - i
  {
    assert s[..j][..i] == s[..i];
    if i < j {
      assert s[..j][..i + 1] == s[..i + 1];
      DecimalValueSnoc(s, i);
      PrefixValueBelow(s, i + 1, j);
    }
  }

  /**
   * ParseUint64 on a run of digits followed by text that does not start with
   * a digit: a range error when the digits overflow, whatever follows them;
   * otherwise a syntax error when anything follows, and the value when nothing
   * does.
   */
  lemma ParseUint64Prefix(digits: string, rest: string)
    requires AllDigits(digits) && (|rest| == 0 || !IsDigit(rest[0]))
    ensures ParseUint64(digits + rest) ==
      if |digits + rest| == 0 then Err(NumSyntax)
      else if DecimalValue(digits) >= Two64 then Err(NumRange)
      else if |rest| > 0 then Err(NumSyntax)
      else Ok(DecimalValue(digits))
  {
    var s := digits + rest;
    if |s| > 0 {
      assert s[..|digits|] == digits;
      assert s[..0] == [];
      ScanOfDigits(s, 0, |digits|);
      if |rest| > 0 {
        assert s[|digits|] == rest[0];
      }
    }
  }

  /** ParseUint64 reads back what Decimal writes, over the whole uint64 range. */
  lemma ParseUint64OfDecimal(n: nat)
    requires n < Two64
    ensures ParseUint64(Decimal(n)) == Ok(n)
  {
    DecimalValueOfDecimal(n);
    ParseUint64Prefix(Decimal(n), "");
    assert Decimal(n) + "" == Decimal(n);
  }

  /** 10^n. */
  function Pow10(n: nat): (r: nat)
    ensures r >= 1
  {
    if n == 0 then 1 else 10 * Pow10(n - 1)
  }

  /** A run of n digits is below 10^n. */
  lemma {:induction false} DecimalBelow(s: string)
    requires AllDigits(s)
    ensures DecimalValue(s) < Pow10(|s|)
    decreases |s|
  {
    if |s| > 0 {
      DecimalBelow(s[..|s| - 1]);
    }
  }

  /** Eighteen digits or fewer always fit in an int64. */
  lemma FewDigitsFit(s: string)
    requires AllDigits(s) && |s| <= 18
    ensures DecimalValue(s) < Two63
  {
    DecimalBelow(s);
    Pow10Monotone(|s|, 18);
    assert Pow10(6) == 1_000_000;
    assert Pow10(18) == 1_000_000_000_000_000_000;
  }

  lemma {:induction false} Pow10Monotone(a: nat, b: nat)
    requires a <= b
    ensures Pow10(a) <= Pow10(b)
    decreases b - a
  {
    if a < b {
      Pow10Monotone(a, b - 1);
    }
  }

  /**
   * strconv.Atoi on a 64-bit platform.  A string of 1 to 18 characters takes
   * the fast path: an optional sign, then digits only.  Anything else goes to
   * strconv.ParseInt(s, 10, 0).
   */
  function Atoi(s: string): (r: Result<int>)
    ensures r.Ok? ==> -Two63 <= r.value < Two63
    ensures r.Err? ==> r.error == NumSyntax || r.error == NumRange
  {
    if 0 < |s| < 19 then
      var digits := if s[0] == '+' || s[0] == '-' then s[1..] else s;
      if |digits| == 0 || !AllDigits(digits) then Err(NumSyntax)
      else
        FewDigitsFit(digits);
        var v: int := DecimalValue(digits);
        Ok(if s[0] == '-' then -v else v)
    else ParseInt64(s)
  }

  /**
   * strconv.ParseInt(s, 10, 64): an optional sign, then ParseUint64 of the
   * rest; its syntax and range errors pass through, and a magnitude beyond
   * the int64 range for the sign is a range error.
   */
  function ParseInt64(s: string): (r: Result<int>)
    ensures r.Ok? ==> -Two63 <= r.value < Two63
    ensures r.Err? ==> r.error == NumSyntax || r.error == NumRange
  {
    if |s| == 0 then Err(NumSyntax)
    else
      var neg := s[0] == '-';
      var digits := if s[0] == '+' || s[0] == '-' then s[1..] else s;
      match ParseUint64(digits)
      case Err(e) => Err(e)
      case Ok(un) =>
        if !neg && un >= Two63 then Err(NumRange)
        else if neg && un > Two63 then Err(NumRange)
        else
          var v: int := un;
          Ok(if neg then -v else v)
  }

  /** Atoi reads back what Decimal writes, over the non-negative int64 range. */
  lemma AtoiOfDecimal(n: nat)
    requires n < Two63
    ensures Atoi(Decimal(n)) == Ok(n)
  {
    DecimalValueOfDecimal(n);
    ParseUint64OfDecimal(n);
    assert !IsDigit('+') && !IsDigit('-');
  }

  /**
   * An Atoi input of 19 characters or more whose digits overflow before the
   * first non-digit is a range error, as in ParseUint64.
   */
  lemma AtoiOverflowFirst(digits: string, rest: string)
    requires AllDigits(digits) && |rest| > 0 && !IsDigit(rest[0])
    requires DecimalValue(digits) >= Two64 && |digits + rest| >= 19
    ensures Atoi(digits + rest) == Err(NumRange)
  {
    ParseUint64Prefix(digits, rest);
    assert DecimalValue([]) == 0;
    assert (digits + rest)[0] == digits[0];
  }

  /** strconv.Itoa. */
  function Itoa(i: int): (r: string)
    ensures i >= 0 ==> |r| > 0 && AllDigits(r)
    ensures i < 0 ==> |r| > 1 && r[0] == '-' && AllDigits(r[1..])
  {
    if i < 0 then "-" + Decimal(-i) else Decimal(i)
  }

  /** For a four-digit year, Itoa(year)[2:4] exists and spells the year modulo 100. */
  lemma ItoaOfFourDigitYear(y: int)
    requires 1000 <= y <= 9999
    ensures |Itoa(y)| == 4
    ensures AllDigits(Itoa(y)[2..4]) && DecimalValue(Itoa(y)[2..4]) == y % 100
  {
    var s := Itoa(y);
    var d0, d1, d2, d3 := y % 10, y / 10 % 10, y / 100 % 10, y / 1000;
    assert y / 10 / 10 == y / 100;
    assert y / 100 / 10 == y / 1000;
    assert Decimal(y / 1000) == [DigitChar(d3)];
    assert Decimal(y / 100) == [DigitChar(d3)] + [DigitChar(d2)];
    assert Decimal(y / 10) == [DigitChar(d3)] + [DigitChar(d2)] + [DigitChar(d1)];
    assert s == [DigitChar(d3)] + [DigitChar(d2)] + [DigitChar(d1)] + [DigitChar(d0)];
    var t := s[2..4];
    assert t == [DigitChar(d1), DigitChar(d0)];
    assert t[..1] == [DigitChar(d1)];
    assert DigitValue(DigitChar(d1)) == d1 && DigitValue(DigitChar(d0)) == d0;
    assert DecimalValue([DigitChar(d1)]) == d1 by {
      assert [DigitChar(d1)][..0] == [];
    }
    assert DecimalValue(t) == d1 * 10 + d0;
    assert y % 100 == d1 * 10 + d0;
  }

  /** Go's int64 arithmetic: the value of `x` after wrap-around. */
  function ToInt64(x: int): (r: int)
    ensures -Two63 <= r < Two63
    ensures (r - x) % Two64 == 0
    ensures -Two63 <= x < Two63 ==> r == x
  {
    (x + Two63) % Two64 - Two63
  }
}
