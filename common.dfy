/** Shared value types and the string operations that several of the
    program's files use: joining, the `/.{1,n}/g` chunking idiom, substring
    search, and ASCII case mapping. */
module Common {

  datatype Option<T> = None | Some(value: T)

  /** The outcome of an operation that the program can abort with an error. */
  datatype Result<T, E> = Ok(value: T) | Err(error: E)

  function Reverse<T>(s: seq<T>): (r: seq<T>)
    ensures |r| == |s|
    ensures forall i :: 0 <= i < |s| ==> r[i] == s[|s| - 1 - i]
  {
    seq(|s|, i requires 0 <= i < |s| => s[|s| - 1 - i])
  }

  lemma ReverseOne<T>(x: T)
    ensures Reverse([x]) == [x]
  {
    assert Reverse([x])[0] == x;
  }

  /** The last element comes first once reversed. */
  lemma ReverseLast<T>(s: seq<T>)
    requires s != []
    ensures Reverse(s) == [s[|s| - 1]] + Reverse(s[..|s| - 1])
  {
  }

  lemma {:induction false} ReverseAppend<T>(a: seq<T>, b: seq<T>)
    ensures Reverse(a + b) == Reverse(b) + Reverse(a)
  {
    var r, l := Reverse(a + b), Reverse(b) + Reverse(a);
    assert |r| == |l|;
    forall i | 0 <= i < |r|
      ensures r[i] == l[i]
    {
      if i < |b| {
        assert r[i] == (a + b)[|a| + |b| - 1 - i] == b[|b| - 1 - i];
      } else {
        assert r[i] == (a + b)[|a| + |b| - 1 - i] == a[|a| + |b| - 1 - i];
      }
    }
  }

  predicate StartsWith(s: string, prefix: string) {
    |prefix| <= |s| && s[..|prefix|] == prefix
  }

  predicate EndsWith(s: string, suffix: string) {
    |suffix| <= |s| && s[|s| - |suffix|..] == suffix
  }

  /** `p` occurs in `s` starting at index `k`. */
  predicate OccursAt(s: string, p: string, k: nat) {
    k + |p| <= |s| && s[k..k + |p|] == p
  }

  /** `s.includes(p)`: some window of `s` equals `p`. */
  function Contains(s: string, p: string): (r: bool)
    ensures r <==> exists k: nat :: OccursAt(s, p, k)
  {
    if |p| > |s| then false
    else if s[..|p|] == p then assert OccursAt(s, p, 0); true
    else
      var r := Contains(s[1..], p);
      assert forall k: nat :: OccursAt(s, p, k + 1) <==> OccursAt(s[1..], p, k);
      assert !OccursAt(s, p, 0);
      assert r ==> exists k: nat :: OccursAt(s, p, k) by {
        if r {
          var k: nat :| OccursAt(s[1..], p, k);
          assert OccursAt(s, p, k + 1);
        }
      }
      assert (exists k: nat :: OccursAt(s, p, k)) ==> r by {
        if exists k: nat :: OccursAt(s, p, k) {
          var k: nat :| OccursAt(s, p, k);
          assert k > 0;
          assert OccursAt(s[1..], p, k - 1);
        }
      }
      r
  }

  predicate IsDigit(c: char) { '0' <= c <= '9' }
  predicate IsLower(c: char) { 'a' <= c <= 'z' }
  predicate IsUpper(c: char) { 'A' <= c <= 'Z' }
  predicate IsAlpha(c: char) { IsLower(c) || IsUpper(c) }
  predicate IsAlnum(c: char) { IsAlpha(c) || IsDigit(c) }

  predicate AllDigits(s: string) { forall i :: 0 <= i < |s| ==> IsDigit(s[i]) }

  function DigitValue(c: char): nat requires IsDigit(c) { c as int - '0' as int }

  /** The number a decimal digit string denotes. */
  function DecimalValue(s: string): nat
    requires AllDigits(s)
  {
    if s == [] then 0 else DecimalValue(s[..|s| - 1]) * 10 + DigitValue(s[|s| - 1])
  }

  function DigitChar(d: nat): (c: char)
    requires d < 10
    ensures IsDigit(c) && DigitValue(c) == d
  {
    ('0' as int + d) as char
  }

  /** `String(n)` for a natural number: its decimal digits, no leading zero. */
  function DecimalString(n: nat): (s: string)
    ensures |s| > 0 && AllDigits(s) && DecimalValue(s) == n
    ensures |s| > 1 ==> s[0] != '0'
    decreases n
  {
    if n < 10 then [DigitChar(n)]
    else
      var s := DecimalString(n / 10) + [DigitChar(n % 10)];
      assert s[..|s| - 1] == DecimalString(n / 10);
      s
  }

  lemma DecimalStringInjective(m: nat, n: nat)
    requires DecimalString(m) == DecimalString(n)
    ensures m == n
  {
  }

  /** `toUpperCase` restricted to ASCII letters. */
  function UpperChar(c: char): (r: char)
    ensures IsLower(c) ==> IsUpper(r) && r as int == c as int - 32
    ensures !IsLower(c) ==> r == c
  {
    if IsLower(c) then (c as int - 32) as char else c
  }

  function Upper(s: string): (r: string)
    ensures |r| == |s|
    ensures forall i :: 0 <= i < |s| ==> r[i] == UpperChar(s[i])
  {
    seq(|s|, i requires 0 <= i < |s| => UpperChar(s[i]))
  }

  lemma {:induction false} UpperAppend(a: string, b: string)
    ensures Upper(a + b) == Upper(a) + Upper(b)
  {
    assert |Upper(a + b)| == |Upper(a) + Upper(b)|;
    forall i | 0 <= i < |a + b|
      ensures Upper(a + b)[i] == (Upper(a) + Upper(b))[i]
    {
      if i < |a| { assert (a + b)[i] == a[i]; } else { assert (a + b)[i] == b[i - |a|]; }
    }
  }

  /** `s.replace(/<c>/g, "")`: every occurrence of `c` deleted. */
  function Without(s: string, c: char): (r: string)
    ensures c !in r
    ensures |r| <= |s|
    ensures c !in s ==> r == s
  {
    if s == [] then []
    else if s[0] == c then Without(s[1..], c)
    else [s[0]] + Without(s[1..], c)
  }

  lemma {:induction false} WithoutAppend(a: string, b: string, c: char)
    ensures Without(a + b, c) == Without(a, c) + Without(b, c)
  {
    if a == [] {
      assert a + b == b;
    } else {
      assert (a + b)[0] == a[0] && (a + b)[1..] == a[1..] + b;
      WithoutAppend(a[1..], b, c);
    }
  }

  function Concat(parts: seq<string>): (r: string)
    ensures |parts| == 1 ==> r == parts[0]
  {
    if parts == [] then [] else parts[0] + Concat(parts[1..])
  }

  /** `parts.join(sep)`. */
  function Join(parts: seq<string>, sep: string): (r: string)
    ensures parts == [] ==> r == []
    ensures |parts| == 1 ==> r == parts[0]
  {
    if parts == [] then []
    else if |parts| == 1 then parts[0]
    else parts[0] + sep + Join(parts[1..], sep)
  }

  /** Joining with a separator character and then deleting that character
      gives the plain concatenation, when no part holds the separator. */
  lemma {:induction false} WithoutJoin(parts: seq<string>, c: char)
    requires forall i :: 0 <= i < |parts| ==> c !in parts[i]
    ensures Without(Join(parts, [c]), c) == Concat(parts)
  {
    if |parts| > 1 {
      WithoutJoin(parts[1..], c);
      WithoutJoinStep(parts[0], parts[1..], c);
      assert parts == [parts[0]] + parts[1..];
    }
  }

  /** One part in front of at least one more: its separator is deleted and
      the part itself is kept. */
  lemma WithoutJoinStep(head: string, tail: seq<string>, c: char)
    requires c !in head && tail != []
    requires Without(Join(tail, [c]), c) == Concat(tail)
    ensures Without(Join([head] + tail, [c]), c) == Concat([head] + tail)
  {
    JoinFront(head, tail, [c]);
    WithoutAppend(head + [c], Join(tail, [c]), c);
    WithoutSeparated(head, c);
    ConcatFront(head, tail);
  }

  lemma JoinFront(head: string, tail: seq<string>, sep: string)
    requires tail != []
    ensures Join([head] + tail, sep) == head + sep + Join(tail, sep)
  {
    assert ([head] + tail)[1..] == tail;
  }

  lemma ConcatFront(head: string, tail: seq<string>)
    ensures Concat([head] + tail) == head + Concat(tail)
  {
    assert ([head] + tail)[1..] == tail;
  }

  /** A part followed by the separator it does not hold loses just the separator. */
  lemma WithoutSeparated(head: string, c: char)
    requires c !in head
    ensures Without(head + [c], c) == head
  {
    WithoutAppend(head, [c], c);
    assert Without([c], c) == Without([], c);
    assert head + [] == head;
  }

  /** The characters that JavaScript's `.` refuses to match. */
  predicate IsLineTerminator(c: char) {
    c == '\n' || c == '\r' || c == '\U{2028}' || c == '\U{2029}'
  }

  /** Length of the longest prefix of `s`, at most `n`, free of line terminators. */
  function RunLength(s: string, n: nat): (k: nat)
    ensures k <= n && k <= |s|
    ensures forall i :: 0 <= i < k ==> !IsLineTerminator(s[i])
    ensures k < n && k < |s| ==> IsLineTerminator(s[k])
  {
    if n == 0 || s == [] || IsLineTerminator(s[0]) then 0 else 1 + RunLength(s[1..], n - 1)
  }

  /** The matches of `s.match(/.{1,n}/g)`, in order (empty where the
      program would get `null`). */
  function Chunks(s: string, n: nat): (r: seq<string>)
    requires n > 0
    decreases |s|
  {
    if s == [] then []
    else if IsLineTerminator(s[0]) then Chunks(s[1..], n)
    else
      var k := RunLength(s, n);
      [s[..k]] + Chunks(s[k..], n)
  }

  predicate NoLineTerminator(s: string) {
    forall i :: 0 <= i < |s| ==> !IsLineTerminator(s[i])
  }

  /** For text free of line terminators, the chunks are the text cut into
      pieces of exactly `n` characters, except a shorter, non-empty last one;
      there is no chunk at all exactly when the text is empty. */
  lemma {:induction false} ChunksCut(s: string, n: nat)
    requires n > 0 && NoLineTerminator(s)
    ensures Concat(Chunks(s, n)) == s
    ensures (Chunks(s, n) == []) <==> (s == [])
    ensures forall i :: 0 <= i < |Chunks(s, n)| ==> 0 < |Chunks(s, n)[i]| <= n
    ensures forall i :: 0 <= i < |Chunks(s, n)| - 1 ==> |Chunks(s, n)[i]| == n
    ensures forall i :: 0 <= i < |Chunks(s, n)| ==> NoLineTerminator(Chunks(s, n)[i])
    decreases |s|
  {
    if s != [] {
      var k := RunLength(s, n);
      var rest := s[k..];
      ChunkHead(s, n, k);
      ChunksCut(rest, n);
      var r := Chunks(s, n);
      assert r == [s[..k]] + Chunks(rest, n);
      assert r[1..] == Chunks(rest, n);
      assert Concat(r) == s[..k] + Concat(Chunks(rest, n));
      forall i | 0 <= i < |r|
        ensures 0 < |r[i]| <= n && NoLineTerminator(r[i]) && (i < |r| - 1 ==> |r[i]| == n)
      {
        if i > 0 {
          assert r[i] == Chunks(rest, n)[i - 1];
        }
      }
    }
  }

  /** The first chunk of a line: non-empty, free of terminators, full
      unless it is the last, and the rest is free of terminators too. */
  lemma ChunkHead(s: string, n: nat, k: nat)
    requires n > 0 && s != [] && NoLineTerminator(s) && k == RunLength(s, n)
    ensures 0 < k <= n && NoLineTerminator(s[..k]) && NoLineTerminator(s[k..])
    ensures s[k..] != [] ==> k == n
    ensures s[..k] + s[k..] == s
  {
    assert !IsLineTerminator(s[0]);
    var rest := s[k..];
    forall i | 0 <= i < |rest| ensures !IsLineTerminator(rest[i]) {
      assert rest[i] == s[k + i];
    }
    var head := s[..k];
    forall i | 0 <= i < |head| ensures !IsLineTerminator(head[i]) {
      assert head[i] == s[i];
    }
  }

  /** `s.indexOf(c)`, with `|s|` standing for "not found". */
  function FirstIndex(s: string, c: char): (i: nat)
    ensures i <= |s| && c !in s[..i]
    ensures i < |s| ==> s[i] == c
    ensures i == |s| <==> c !in s
  {
    if s == [] then 0
    else if s[0] == c then 0
    else
      var j := FirstIndex(s[1..], c);
      assert s[..1 + j] == [s[0]] + s[1..][..j];
      1 + j
  }

  /** The first `c` in `a + [c] + b` is the one after `a`, when `a` has none. */
  lemma FirstIndexAfter(a: string, c: char, b: string)
    requires c !in a
    ensures FirstIndex(a + [c] + b, c) == |a|
  {
    var s := a + [c] + b;
    assert s[..|a|] == a && s[|a|] == c;
  }

  /** The text before and after the first `c`, if `s` holds one. */
  function SplitAt(s: string, c: char): (r: Option<(string, string)>)
    ensures r.None? <==> c !in s
    ensures r.Some? ==> s == r.value.0 + [c] + r.value.1 && c !in r.value.0
  {
    var i := FirstIndex(s, c);
    if i == |s| then None
    else
      assert s == s[..i] + [c] + s[i + 1..];
      Some((s[..i], s[i + 1..]))
  }

  lemma SplitAtFirst(a: string, c: char, b: string)
    requires c !in a
    ensures SplitAt(a + [c] + b, c) == Some((a, b))
  {
    FirstIndexAfter(a, c, b);
    var s := a + [c] + b;
    assert s[..|a|] == a && s[|a| + 1..] == b;
  }
}
