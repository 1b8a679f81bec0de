/** C strings in byte buffers: strlen, strncpy. */
module CStrings {

  /** strlen and the characters before the terminator; the whole buffer if there is none. */
  function CString(buffer: seq<bv8>): (s: seq<bv8>)
    ensures |s| <= |buffer| && s == buffer[..|s|]
    ensures 0 !in s
    ensures |s| < |buffer| ==> buffer[|s|] == 0
  {
    if buffer == [] || buffer[0] == 0 then [] else [buffer[0]] + CString(buffer[1..])
  }

  function Take<T>(s: seq<T>, n: nat): seq<T> {
    if |s| <= n then s else s[..n]
  }

  function Zeros(n: nat): (z: seq<bv8>)
    ensures |z| == n && forall i :: 0 <= i < n ==> z[i] == 0
  {
    seq(n, _ => 0)
  }

  /** strncpy of n bytes (C11 section 7.24.2.4): at most n characters, then zeros. */
  function Strncpy(src: seq<bv8>, n: nat): (dst: seq<bv8>)
    ensures |dst| == n
  {
    var text := Take(CString(src), n);
    text + Zeros(n - |text|)
  }

  /** A buffer's text is fixed by where its first zero is. */
  lemma CStringUnique(buffer: seq<bv8>, text: seq<bv8>)
    requires text <= buffer && 0 !in text
    requires |text| == |buffer| || buffer[|text|] == 0
    ensures CString(buffer) == text
  {
  }

  /** Copying with the terminator kept shows the first n characters. */
  lemma StrncpyText(src: seq<bv8>, n: nat, tail: seq<bv8>)
    requires tail != [] && tail[0] == 0
    ensures CString(Strncpy(src, n) + tail) == Take(CString(src), n)
  {
    CStringUnique(Strncpy(src, n) + tail, Take(CString(src), n));
  }

  lemma StrncpySplits(src: seq<bv8>, n: nat) returns (text: seq<bv8>)
    requires 0 in src || n <= |src|
    ensures |text| <= n && |text| <= |src| && text == src[..|text|]
    ensures forall j :: 0 <= j < |text| ==> src[j] != 0
    ensures Strncpy(src, n) == text + Zeros(n - |text|)
    ensures |text| < n ==> |text| < |src| && src[|text|] == 0
  {
    text := Take(CString(src), n);
    if CString(src) == src {
      assert 0 !in src;
    }
  }

  /** The copy in an array, character by character and then zero by zero. */
  method StrncpyInto(dst: array<bv8>, src: seq<bv8>, n: nat)
    requires n <= dst.Length
    requires 0 in src || n <= |src|
    modifies dst
    ensures dst[..n] == Strncpy(src, n) && dst[n..] == old(dst[n..])
  {
    ghost var text := StrncpySplits(src, n);
    var i := 0;
    while i < n && src[i] != 0
      invariant i <= |text|
      invariant dst[..i] == text[..i]
      invariant dst[n..] == old(dst[n..])
      decreases n - i
    {
      dst[i] := src[i];
      i := i + 1;
    }
    assert dst[..i] == text;
    FillZeros(dst, i, n);
    assert dst[..n] == dst[..i] + dst[i..n];
  }

  method FillZeros(dst: array<bv8>, from: nat, to: nat)
    requires from <= to <= dst.Length
    modifies dst
    ensures dst[..from] == old(dst[..from]) && dst[from..to] == Zeros(to - from) && dst[to..] == old(dst[to..])
  {
    var i := from;
    while i < to
      invariant from <= i <= to
      invariant dst[..from] == old(dst[..from]) && dst[to..] == old(dst[to..])
      invariant forall j :: from <= j < i ==> dst[j] == 0
    {
      dst[i] := 0;
      i := i + 1;
    }
  }
}
