// decodeMsg of HttpRequest.c: percent-decoding (section 2.1 of RFC 3986), run in place.
module PercentDecode {
  import opened Bytes

  const PERCENT: Byte := 37

  // isxdigit
  predicate IsHex(c: Byte) {
    48 <= c <= 57 || 97 <= c <= 102 || 65 <= c <= 70
  }

  function HexToDec(c: Byte): (d: nat)
    ensures d < 16
    ensures d != 0 ==> IsHex(c)
  {
    if 48 <= c <= 57 then c - 48
    else if 97 <= c <= 102 then c - 97 + 10
    else if 65 <= c <= 70 then c - 65 + 10
    else 0
  }

  predicate Escape(s: seq<Byte>) {
    |s| >= 3 && s[0] == PERCENT && IsHex(s[1]) && IsHex(s[2])
  }

  // What the bytes mean; malformed escapes stand for themselves.
  function Decode(s: seq<Byte>): (d: seq<Byte>)
    ensures |d| <= |s|
  {
    if s == [] then []
    else if Escape(s) then [HexToDec(s[1]) * 16 + HexToDec(s[2])] + Decode(s[3..])
    else [s[0]] + Decode(s[1..])
  }

  // `c` is a hex digit for d, in either case.
  predicate DigitFor(c: Byte, d: nat) {
    || (d < 10 && c == 48 + d)
    || (10 <= d < 16 && (c == 97 + (d - 10) || c == 65 + (d - 10)))
  }

  ghost predicate Digit(c: Byte) {
    exists n: nat :: DigitFor(c, n)
  }

  lemma HexDigitsExactly(c: Byte, d: nat)
    ensures IsHex(c) && HexToDec(c) == d <==> DigitFor(c, d)
    ensures IsHex(c) <==> Digit(c)
    ensures !IsHex(c) ==> HexToDec(c) == 0
  {
    if IsHex(c) {
      assert DigitFor(c, HexToDec(c));
    }
  }

  // `e` says `s`, each byte as it is or as an escape, a percent sign always as an escape.
  predicate Encodes(e: seq<Byte>, s: seq<Byte>)
    decreases |s|
  {
    if s == [] then e == []
    else
      || (e != [] && e[0] == s[0] != 37 && Encodes(e[1..], s[1..]))
      || (|e| >= 3 && e[0] == 37 && DigitFor(e[1], s[0] / 16) && DigitFor(e[2], s[0] % 16) && Encodes(e[3..], s[1..]))
  }

  // Every percent sign begins an escape.
  predicate WellFormed(e: seq<Byte>) {
    forall i: nat :: i < |e| && e[i] == 37 ==> EscapeAt(e, i)
  }

  lemma WellFormedTail(e: seq<Byte>, n: nat)
    requires n <= |e| && forall i: nat :: i < n && e[i] == 37 ==> EscapeAt(e, i)
    ensures WellFormed(e) <==> WellFormed(e[n..])
  {
    if WellFormed(e[n..]) {
      forall i: nat | i < |e| && e[i] == 37 ensures EscapeAt(e, i) {
        if i >= n {
          assert EscapeAt(e[n..], i - n);
        }
      }
    }
    if WellFormed(e) {
      forall i: nat | i < |e[n..]| && e[n..][i] == 37 ensures EscapeAt(e[n..], i) {
        assert EscapeAt(e, i + n);
      }
    }
  }

  lemma {:induction false} EncodedDecodes(e: seq<Byte>, s: seq<Byte>)
    requires Encodes(e, s)
    ensures Decode(e) == s && WellFormed(e)
    decreases |s|
  {
    if s != [] {
      if e[0] == s[0] != 37 && Encodes(e[1..], s[1..]) {
        EncodedDecodes(e[1..], s[1..]);
        WellFormedTail(e, 1);
      } else {
        HexDigitsExactly(e[1], s[0] / 16);
        HexDigitsExactly(e[2], s[0] % 16);
        EncodedDecodes(e[3..], s[1..]);
        assert EscapeAt(e, 0);
        WellFormedTail(e, 3);
      }
    }
  }

  lemma {:induction false} DecodedIsEncoded(e: seq<Byte>)
    requires WellFormed(e)
    ensures Encodes(e, Decode(e))
  {
    if e != [] {
      var s := Decode(e);
      if e[0] == 37 {
        assert EscapeAt(e, 0);
        var h, l := HexToDec(e[1]), HexToDec(e[2]);
        HexDigitsExactly(e[1], h);
        HexDigitsExactly(e[2], l);
        WellFormedTail(e, 3);
        DecodedIsEncoded(e[3..]);
        assert s[0] == h * 16 + l && s[1..] == Decode(e[3..]);
      } else {
        WellFormedTail(e, 1);
        DecodedIsEncoded(e[1..]);
        assert s[1..] == Decode(e[1..]);
      }
    }
  }

  // Decoding undoes every encoding, whichever bytes it escapes and in whichever case of the hex digits;
  // and it takes for an encoding everything but a text with a percent sign that begins no escape.
  lemma DecodeEncode(e: seq<Byte>, s: seq<Byte>)
    ensures Encodes(e, s) <==> Decode(e) == s && WellFormed(e)
  {
    if Encodes(e, s) {
      EncodedDecodes(e, s);
    }
    if WellFormed(e) {
      DecodedIsEncoded(e);
    }
  }

  lemma {:induction false} EncodedHasNoNul(e: seq<Byte>, s: seq<Byte>)
    requires Encodes(e, s) && NulFree(s)
    ensures NulFree(e)
    decreases |s|
  {
    if s != [] {
      if e[0] == s[0] != 37 && Encodes(e[1..], s[1..]) {
        EncodedHasNoNul(e[1..], s[1..]);
      } else {
        EncodedHasNoNul(e[3..], s[1..]);
      }
    }
  }

  lemma Concat(a: seq<Byte>, b: seq<Byte>)
    requires |a| == 1
    ensures NulFree(a + b) <==> a[0] != 0 && NulFree(b)
  {
    assert (a + b)[0] == a[0];
    assert forall i :: 0 <= i < |b| ==> (a + b)[i + 1] == b[i];
  }

  predicate EscapeAt(s: seq<Byte>, i: nat) {
    i + 3 <= |s| && s[i] == PERCENT && IsHex(s[i + 1]) && IsHex(s[i + 2])
  }

  lemma DecodeFrom(s: seq<Byte>, i: nat)
    requires i < |s|
    ensures EscapeAt(s, i) ==> Decode(s[i..]) == [HexToDec(s[i + 1]) * 16 + HexToDec(s[i + 2])] + Decode(s[i + 3..])
    ensures !EscapeAt(s, i) ==> Decode(s[i..]) == [s[i]] + Decode(s[i + 1..])
  {
  }

  // By its rules: an escape stands for the byte of its two digits, and any other byte for itself.
  lemma DecodeByRules(s: seq<Byte>, i: nat, h: nat, l: nat)
    requires i < |s|
    ensures i + 3 <= |s| && s[i] == 37 && DigitFor(s[i + 1], h) && DigitFor(s[i + 2], l) ==>
              Decode(s[i..]) == [16 * h + l] + Decode(s[i + 3..])
    ensures !(i + 3 <= |s| && s[i] == 37 && Digit(s[i + 1]) && Digit(s[i + 2])) ==>
              Decode(s[i..]) == [s[i]] + Decode(s[i + 1..])
  {
    DecodeFrom(s, i);
    if i + 3 <= |s| {
      HexDigitsExactly(s[i + 1], h);
      HexDigitsExactly(s[i + 2], l);
    }
  }

  lemma {:induction false} PlainStaysPlain(s: seq<Byte>)
    requires forall i: nat :: !EscapeAt(s, i)
    ensures Decode(s) == s
  {
    if s != [] {
      assert !EscapeAt(s, 0);
      forall i: nat ensures !EscapeAt(s[1..], i) {
        assert !EscapeAt(s, i + 1);
      }
      PlainStaysPlain(s[1..]);
    }
  }

  lemma {:induction false} EscapesShrink(s: seq<Byte>, i: nat)
    requires EscapeAt(s, i)
    ensures |Decode(s)| < |s|
  {
    if i > 0 && !Escape(s) {
      assert EscapeAt(s[1..], i - 1);
      EscapesShrink(s[1..], i - 1);
    }
  }

  // Text is left alone exactly when there is no well-formed escape in it.
  lemma DecodeChangesEscapesOnly(s: seq<Byte>)
    ensures Decode(s) == s <==> forall i: nat :: !EscapeAt(s, i)
  {
    if i: nat :| EscapeAt(s, i) {
      EscapesShrink(s, i);
    } else {
      PlainStaysPlain(s);
    }
  }

  // "%00" at position i.
  predicate ZeroEscapeAt(s: seq<Byte>, i: nat) {
    EscapeAt(s, i) && s[i + 1] == 48 && s[i + 2] == 48
  }

  // Escapes never overlap: inside one there is no percent sign.
  lemma ZeroEscapeTail(s: seq<Byte>, n: nat)
    requires n <= |s| && forall i: nat :: i < n ==> !ZeroEscapeAt(s, i)
    ensures (exists i: nat :: ZeroEscapeAt(s, i)) <==> (exists i: nat :: ZeroEscapeAt(s[n..], i))
  {
    if i: nat :| ZeroEscapeAt(s, i) {
      assert ZeroEscapeAt(s[n..], i - n);
    }
    if i: nat :| ZeroEscapeAt(s[n..], i) {
      assert ZeroEscapeAt(s, i + n);
    }
  }

  // "%00" is the one way a NUL gets into the result; without it the C string left behind is the
  // whole decoded text.
  lemma {:induction false} DecodedNul(s: seq<Byte>)
    requires NulFree(s)
    ensures NulFree(Decode(s)) <==> forall i: nat :: !ZeroEscapeAt(s, i)
  {
    if s != [] {
      DecodeFrom(s, 0);
      assert s[0..] == s;
      if EscapeAt(s, 0) {
        DecodedNul(s[3..]);
        Concat([HexToDec(s[1]) * 16 + HexToDec(s[2])], Decode(s[3..]));
        if !ZeroEscapeAt(s, 0) {
          ZeroEscapeTail(s, 3);
        }
      } else {
        DecodedNul(s[1..]);
        Concat([s[0]], Decode(s[1..]));
        ZeroEscapeTail(s, 1);
      }
    }
  }

  // The terminator stops the two look-aheads in time: they never leave the C string.
  lemma LookAhead(text: seq<Byte>, src: seq<Byte>, i: nat)
    requires src == UpToNul(text) && i < |src| < |text|
    ensures text[i] == src[i] != 0
    ensures IsHex(text[i + 1]) ==> i + 2 < |text|
    ensures text[i] == PERCENT && IsHex(text[i + 1]) && IsHex(text[i + 2]) <==> EscapeAt(src, i)
    ensures EscapeAt(src, i) ==> text[i + 1] == src[i + 1] && text[i + 2] == src[i + 2]
  {
    assert text[i] == src[i];
    if i + 1 < |src| {
      assert text[i + 1] == src[i + 1];
      if i + 2 < |src| {
        assert text[i + 2] == src[i + 2];
      }
    }
  }

  // How far decodeMsg(msg, msg) has come on the C string `src` at the front of `text`: it has
  // written up to `to` and read up to `from`, both over the same memory.
  ghost predicate Decoding(msg: seq<Byte>, to: nat, from: nat, text: seq<Byte>, src: seq<Byte>) {
    && to <= from <= |src| < |text| == |msg|
    && msg[to..] == text[to..]
    && msg[..to] + Decode(src[from..]) == Decode(src)
  }

  lemma DecodingStep(msg: seq<Byte>, to: nat, from: nat, text: seq<Byte>, src: seq<Byte>, b: Byte, step: nat)
    requires Decoding(msg, to, from, text, src) && 1 <= step && from + step <= |src|
    requires Decode(src[from..]) == [b] + Decode(src[from + step..])
    ensures Decoding(msg[to := b], to + 1, from + step, text, src)
  {
  }

  lemma Unread(msg: seq<Byte>, to: nat, from: nat, text: seq<Byte>, src: seq<Byte>)
    requires Decoding(msg, to, from, text, src)
    ensures forall k :: from <= k < |text| ==> msg[k] == text[k]
  {
  }

  lemma DecodingDone(msg: seq<Byte>, to: nat, text: seq<Byte>, src: seq<Byte>)
    requires Decoding(msg, to, |src|, text, src)
    ensures |Decode(src)| == to && msg[to := 0] == Decode(src) + [0] + text[to + 1..]
  {
  }

  // One round of decodeMsg's loop, on what is under the read cursor: the byte to write and the
  // number of bytes read.
  method Next(msg: array<Byte>, from: nat, ghost text: seq<Byte>, ghost src: seq<Byte>) returns (b: Byte, step: nat)
    requires src == UpToNul(text) && from < |src| < |text| == msg.Length
    requires forall k :: from <= k < |text| ==> msg[k] == text[k]
    ensures 1 <= step && from + step <= |src|
    ensures Decode(src[from..]) == [b] + Decode(src[from + step..])
  {
    LookAhead(text, src, from);
    DecodeFrom(src, from);
    if msg[from] == PERCENT && IsHex(msg[from + 1]) && IsHex(msg[from + 2]) {
      b := HexToDec(msg[from + 1]) * 16 + HexToDec(msg[from + 2]);
      step := 3;
    } else {
      b := msg[from];
      step := 1;
    }
  }

  // The body of the loop; `cur` is what the memory holds.
  method Round(msg: array<Byte>, to: nat, from: nat, ghost cur: seq<Byte>, ghost text: seq<Byte>, ghost src: seq<Byte>)
    returns (from': nat, ghost cur': seq<Byte>)
    requires src == UpToNul(text) && from < |src| && cur == msg[..] && Decoding(cur, to, from, text, src)
    modifies msg
    ensures from < from' <= |src| && cur' == msg[..] && Decoding(cur', to + 1, from', text, src)
  {
    Unread(cur, to, from, text, src);
    var b, step := Next(msg, from, text, src);
    DecodingStep(cur, to, from, text, src, b, step);
    msg[to] := b;
    from', cur' := from + step, cur[to := b];
  }

  // decodeMsg(msg, msg) on the C string at the front of `msg`. The write cursor never overtakes
  // the read cursor, so what is still to be read is intact throughout, and nothing behind the
  // terminator written is touched.
  method DecodeInPlace(msg: array<Byte>)
    requires 0 in msg[..]
    modifies msg
    ensures var decoded := Decode(UpToNul(old(msg[..])));
            && |decoded| < msg.Length
            && msg[..] == decoded + [0] + old(msg[..])[|decoded| + 1..]
  {
    ghost var text := msg[..];
    ghost var src := UpToNul(text);
    Terminated(text);
    var to, from := 0, 0;
    assert src[0..] == src && [] + Decode(src) == Decode(src);
    ghost var cur := text;
    while msg[from] != 0
      invariant cur == msg[..] && Decoding(cur, to, from, text, src)
      decreases |src| - from
    {
      Unread(cur, to, from, text, src);
      from, cur := Round(msg, to, from, cur, text, src);
      to := to + 1;
    }
    Unread(cur, to, from, text, src);
    DecodingDone(cur, to, text, src);
    msg[to] := 0;
    assert msg[..] == cur[to := 0];
  }

  lemma Terminated(text: seq<Byte>)
    requires 0 in text
    ensures |UpToNul(text)| < |text|
  {
  }
}
