// Byte strings and memmem, for the HTTP server's buffer and parser.
module Bytes {
  import opened Common

  type Byte = x: int | 0 <= x < 256

  const CR: Byte := 13
  const LF: Byte := 10
  const SPACE: Byte := 32
  const COLON: Byte := 58
  const CRLF: seq<Byte> := [CR, LF]

  predicate At(hay: seq<Byte>, i: nat, needle: seq<Byte>) {
    i + |needle| <= |hay| && hay[i..i + |needle|] == needle
  }

  lemma PairAt(hay: seq<Byte>, i: nat, a: Byte, b: Byte)
    ensures At(hay, i, [a, b]) <==> i + 2 <= |hay| && hay[i] == a && hay[i + 1] == b
  {
  }

  // memmem: the first occurrence.
  function Find(hay: seq<Byte>, needle: seq<Byte>): (r: Option<nat>)
    ensures r.Some? ==> At(hay, r.value, needle) && forall j: nat :: j < r.value ==> !At(hay, j, needle)
    ensures r.None? ==> forall j: nat :: !At(hay, j, needle)
  {
    FindFrom(hay, needle, 0)
  }

  function FindFrom(hay: seq<Byte>, needle: seq<Byte>, i: nat): (r: Option<nat>)
    requires i <= |hay|
    ensures r.Some? ==> i <= r.value && At(hay, r.value, needle)
    ensures r.Some? ==> forall j: nat :: i <= j < r.value ==> !At(hay, j, needle)
    ensures r.None? ==> forall j: nat :: i <= j ==> !At(hay, j, needle)
    decreases |hay| - i
  {
    if i + |needle| > |hay| then None
    else if At(hay, i, needle) then Some(i)
    else if i == |hay| then None
    else FindFrom(hay, needle, i + 1)
  }

  lemma FindUnique(hay: seq<Byte>, needle: seq<Byte>, i: nat)
    requires At(hay, i, needle) && forall j: nat :: j < i ==> !At(hay, j, needle)
    ensures Find(hay, needle) == Some(i)
  {
  }

  // More bytes behind a found occurrence change nothing.
  lemma FindStable(hay: seq<Byte>, more: seq<Byte>, needle: seq<Byte>)
    requires Find(hay, needle).Some?
    ensures Find(hay + more, needle) == Find(hay, needle)
  {
    var i := Find(hay, needle).value;
    assert (hay + more)[i..i + |needle|] == hay[i..i + |needle|];
    forall j: nat | j < i ensures !At(hay + more, j, needle) {
      assert !At(hay, j, needle);
      assert (hay + more)[j..j + |needle|] == hay[j..j + |needle|];
    }
    FindUnique(hay + more, needle, i);
  }

  // The bytes of a C string: everything before the first NUL.
  function UpToNul(s: seq<Byte>): (r: seq<Byte>)
    ensures |r| <= |s| && r == s[..|r|]
    ensures |r| < |s| ==> s[|r|] == 0
    ensures forall i :: 0 <= i < |r| ==> r[i] != 0
  {
    if s == [] || s[0] == 0 then [] else [s[0]] + UpToNul(s[1..])
  }

  predicate NulFree(s: seq<Byte>) {
    forall i :: 0 <= i < |s| ==> s[i] != 0
  }

  lemma NulFreeUnchanged(s: seq<Byte>)
    requires NulFree(s)
    ensures UpToNul(s) == s
  {
  }
}
