/** `truncate_suffix` and `truncate_suffix_string`: the tail of a child's output an error keeps. */
module Tail {
  import opened Types

  const STREAM_SUFFIX_SIZE: nat := 128 * 1024

  predicate Continuation(b: Byte) { 0x80 <= b <= 0xBF }

  /** Length of the well-formed character at the head of `s`, or 0: the grammar of section 4 of
      RFC 3629 (no overlong forms, no surrogates, nothing above U+10FFFF). */
  function CharLen(s: seq<Byte>): (n: nat)
    ensures n <= 4 && n <= |s|
    ensures forall k :: 1 <= k < n ==> Continuation(s[k])
    ensures n > 0 ==> !Continuation(s[0])
  {
    if |s| == 0 then 0
    else if s[0] <= 0x7F then 1
    else if 0xC2 <= s[0] <= 0xDF && |s| >= 2 && Continuation(s[1]) then 2
    else if |s| >= 3 && Continuation(s[1]) && Continuation(s[2])
         && ((s[0] == 0xE0 && 0xA0 <= s[1]) || 0xE1 <= s[0] <= 0xEC
             || (s[0] == 0xED && s[1] <= 0x9F) || 0xEE <= s[0] <= 0xEF) then 3
    else if |s| >= 4 && Continuation(s[1]) && Continuation(s[2]) && Continuation(s[3])
         && ((s[0] == 0xF0 && 0x90 <= s[1]) || 0xF1 <= s[0] <= 0xF3
             || (s[0] == 0xF4 && s[1] <= 0x8F)) then 4
    else 0
  }

  /** The value the table in section 3 of RFC 3629 gives to a lead byte and the bytes after it. */
  function Decoded(s: seq<Byte>): int
    requires 1 <= |s| <= 4
  {
    var b: seq<int> := s;
    if |b| == 1 then b[0]
    else if |b| == 2 then (b[0] - 0xC0) * 0x40 + (b[1] - 0x80)
    else if |b| == 3 then (b[0] - 0xE0) * 0x1000 + (b[1] - 0x80) * 0x40 + (b[2] - 0x80)
    else (b[0] - 0xF0) * 0x4_0000 + (b[1] - 0x80) * 0x1000 + (b[2] - 0x80) * 0x40 + (b[3] - 0x80)
  }

  /** `s` is the encoding of one Unicode scalar value, in the fewest bytes. */
  predicate Encodes(s: seq<Byte>) {
    && 1 <= |s| <= 4 && (forall k :: 1 <= k < |s| ==> 0x80 <= s[k] <= 0xBF)
    && (if |s| == 1 then s[0] <= 0x7F
        else if |s| == 2 then 0xC0 <= s[0] <= 0xDF && 0x80 <= Decoded(s)
        else if |s| == 3 then 0xE0 <= s[0] <= 0xEF && 0x800 <= Decoded(s)
        else 0xF0 <= s[0] <= 0xF7 && 0x1_0000 <= Decoded(s))
    && (Decoded(s) < 0xD800 || 0xE000 <= Decoded(s) <= 0x10FFFF)
  }

  /** The grammar accepts exactly those. */
  lemma CharLenIff(s: seq<Byte>, n: nat)
    requires 1 <= n <= 4 && n <= |s|
    ensures CharLen(s) == n <==> Encodes(s[..n])
  {
    var c := s[..n];
    assert forall k :: 0 <= k < n ==> c[k] == s[k];
  }

  /** What a Rust `String` holds. */
  predicate Utf8(s: seq<Byte>) {
    s == [] || (CharLen(s) > 0 && Utf8(s[CharLen(s)..]))
  }

  /** Whether a character of `s` starts at `i`, or `s` ends there. */
  predicate Boundary(s: seq<Byte>, i: nat)
    requires i <= |s|
  {
    i == |s| || !Continuation(s[i])
  }

  /** A suffix of a well-formed string is well-formed exactly when it starts at a boundary. */
  lemma {:induction false} SuffixWellFormed(s: seq<Byte>, i: nat)
    requires Utf8(s) && i <= |s|
    ensures Utf8(s[i..]) <==> Boundary(s, i)
  {
    var n := CharLen(s);
    if i == 0 {
      assert s[0..] == s;
    } else if i < n {
      assert Continuation(s[i]) && s[i..][0] == s[i];
      assert CharLen(s[i..]) == 0;
    } else if i == |s| {
      assert s[i..] == [];
    } else {
      SuffixWellFormed(s[n..], i - n);
      assert s[n..][i - n..] == s[i..];
    }
  }

  /** A well-formed string never goes four bytes without a boundary. */
  lemma {:induction false} BoundaryWithinFour(s: seq<Byte>, i: nat)
    requires Utf8(s) && i <= |s|
    ensures exists j :: i <= j <= Min(i + 3, |s|) && Boundary(s, j)
  {
    var n := CharLen(s);
    if i == 0 {
      assert Boundary(s, 0);
    } else if i <= n {
      if n < |s| { assert CharLen(s[n..]) > 0; assert !Continuation(s[n..][0]); }
      assert Boundary(s, n);
    } else {
      BoundaryWithinFour(s[n..], i - n);
      var j :| i - n <= j <= Min(i - n + 3, |s[n..]|) && Boundary(s[n..], j);
      assert Boundary(s, j + n);
    }
  }

  /** The least boundary of `s` at or after `i`. */
  function NextBoundary(s: seq<Byte>, i: nat): (j: nat)
    requires i <= |s|
    ensures i <= j <= |s| && Boundary(s, j)
    ensures forall k :: i <= k < j ==> !Boundary(s, k)
    decreases |s| - i
  {
    if Boundary(s, i) then i else NextBoundary(s, i + 1)
  }

  /** The standard library's `str::ceil_char_boundary`: it looks at no more than four bytes. */
  method CeilCharBoundary(s: seq<Byte>, index: nat) returns (j: nat)
    requires Utf8(s)
    ensures j == if index <= |s| then NextBoundary(s, index) else |s|
  {
    if index >= |s| { return |s|; }
    BoundaryWithinFour(s, index);
    var upper := Min(index + 4, |s|);
    j := index;
    while j < upper && Continuation(s[j])
      invariant index <= j <= upper
      invariant forall k :: index <= k < j ==> Continuation(s[k])
    {
      j := j + 1;
    }
    var b :| index <= b <= Min(index + 3, |s|) && Boundary(s, b);
    assert j <= b && Boundary(s, j);
    assert NextBoundary(s, index) >= j;
  }

  function TruncateSuffix(buf: seq<Byte>): seq<Byte> {
    buf[Monus(|buf|, STREAM_SUFFIX_SIZE)..]
  }

  function TruncateSuffixString(s: seq<Byte>): seq<Byte> {
    s[NextBoundary(s, Monus(|s|, STREAM_SUFFIX_SIZE))..]
  }

  /** The last 131072 bytes, or all there are. */
  predicate ByteTail(tail: seq<Byte>, buf: seq<Byte>) {
    |tail| == Min(|buf|, 131072) && tail == buf[|buf| - |tail|..]
  }

  /** The same for text, less the up to three bytes of a character cut in two. */
  predicate TextTail(tail: seq<Byte>, text: seq<Byte>) {
    && |tail| <= Min(|text|, 131072) && tail == text[|text| - |tail|..]
    && (tail != [] && |tail| < |text| ==> !(0x80 <= tail[0] <= 0xBF))
    && forall k :: |text| - Min(|text|, 131072) <= k < |text| - |tail| ==> 0x80 <= text[k] <= 0xBF
  }

  lemma ByteTailIs(buf: seq<Byte>)
    ensures ByteTail(TruncateSuffix(buf), buf)
  {
  }

  lemma TextTailIs(text: seq<Byte>)
    ensures TextTail(TruncateSuffixString(text), text)
  {
    var cut := Monus(|text|, STREAM_SUFFIX_SIZE);
    var start := NextBoundary(text, cut);
    var tail := TruncateSuffixString(text);
    assert |tail| == |text| - start && tail == text[start..];
    if start < |text| { assert tail[0] == text[start]; }
    forall k | cut <= k < start
      ensures 0x80 <= text[k] <= 0xBF
    {
      assert !Boundary(text, k);
    }
  }

  method DrainToSuffix(s: seq<Byte>) returns (r: seq<Byte>)
    requires Utf8(s)
    ensures r == TruncateSuffixString(s) && TextTail(r, s)
  {
    TextTailIs(s);
    var start := CeilCharBoundary(s, Monus(|s|, STREAM_SUFFIX_SIZE));
    r := s[start..];
  }

  /** The kept text is the longest well-formed suffix that fits the cap. */
  lemma KeepsLongestSuffix(s: seq<Byte>)
    requires Utf8(s)
    ensures Utf8(TruncateSuffixString(s)) && |TruncateSuffixString(s)| <= STREAM_SUFFIX_SIZE
    ensures forall i: nat :: i <= |s| && Utf8(s[i..]) && |s| - i <= STREAM_SUFFIX_SIZE
                             ==> |s| - i <= |TruncateSuffixString(s)|
    ensures |s| <= STREAM_SUFFIX_SIZE ==> TruncateSuffixString(s) == s
    ensures |s| > STREAM_SUFFIX_SIZE ==> |TruncateSuffixString(s)| >= STREAM_SUFFIX_SIZE - 3
  {
    var cut := Monus(|s|, STREAM_SUFFIX_SIZE);
    var start := NextBoundary(s, cut);
    SuffixWellFormed(s, start);
    forall i: nat | i <= |s| && Utf8(s[i..]) && |s| - i <= STREAM_SUFFIX_SIZE
      ensures |s| - i <= |TruncateSuffixString(s)|
    {
      SuffixWellFormed(s, i);
    }
    BoundaryWithinFour(s, cut);
    if |s| <= STREAM_SUFFIX_SIZE { SuffixWellFormed(s, 0); assert s[0..] == s; }
  }

  /** Cutting twice cuts nothing more. */
  lemma TruncationIsIdempotent(s: seq<Byte>)
    requires Utf8(s)
    ensures TruncateSuffixString(TruncateSuffixString(s)) == TruncateSuffixString(s)
  {
    KeepsLongestSuffix(s);
    KeepsLongestSuffix(TruncateSuffixString(s));
  }

  /** The text cut and the byte cut agree exactly when the byte cut leaves well-formed text. */
  lemma AgreesWithByteCutIff(s: seq<Byte>)
    requires Utf8(s)
    ensures TruncateSuffixString(s) == TruncateSuffix(s) <==> Utf8(TruncateSuffix(s))
  {
    hide Utf8;
    var cut := Monus(|s|, STREAM_SUFFIX_SIZE);
    var start := NextBoundary(s, cut);
    SuffixWellFormed(s, cut);
    assert |TruncateSuffixString(s)| == |s| - start && |TruncateSuffix(s)| == |s| - cut;
    assert start == cut <==> Boundary(s, cut);
  }
}
