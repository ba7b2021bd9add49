// HttpRequest.c's parser as it works on the request object and the buffer.
module HttpRequestObjects {
  import opened Common
  import opened Bytes
  import opened ByteBuffer
  import opened HttpParsing
  import PercentDecode

  // The memory from `start` on holds `line`.
  ghost predicate Holds(data: array<Byte>, start: nat, line: seq<Byte>)
    reads data
  {
    start + |line| <= data.Length && forall k :: 0 <= k < |line| ==> data[start + k] == line[k]
  }

  lemma HoldsPart(data: array<Byte>, start: nat, line: seq<Byte>, i: nat, j: nat)
    requires Holds(data, start, line) && i <= j <= |line|
    ensures Holds(data, start + i, line[i..j])
  {
  }

  lemma HoldsFront(readBuf: Buffer, count: nat)
    requires readBuf.Valid() && count <= readBuf.ReadableSize()
    ensures Holds(readBuf.data, readBuf.readPos, readBuf.View().unread[..count])
  {
  }

  // memmem over the memory from `start` to `end`: the offset of the first occurrence.
  method Memmem(data: array<Byte>, start: nat, end: nat, sub: seq<Byte>, ghost line: seq<Byte>) returns (r: Option<nat>)
    requires Holds(data, start, line) && end == start + |line| && sub != []
    ensures r == Find(line, sub)
  {
    var i := 0;
    while start + i + |sub| <= end
      invariant forall j: nat :: j < i ==> !At(line, j, sub)
      decreases end - i
    {
      HoldsPart(data, start, line, i, i + |sub|);
      assert data[start + i..start + i + |sub|] == line[i..i + |sub|];
      if data[start + i..start + i + |sub|] == sub {
        FindUnique(line, sub, i);
        return Some(i);
      }
      i := i + 1;
    }
    r := None;
  }

  // strncpy(token, data + start, length) with the terminator put behind: the C string it makes.
  method CopyToken(data: array<Byte>, start: nat, end: nat, ghost source: seq<Byte>) returns (token: seq<Byte>)
    requires Holds(data, start, source) && end == start + |source|
    ensures token == UpToNul(source)
  {
    token := [];
    var i := 0;
    while start + i < end && data[start + i] != 0
      invariant i <= |source|
      invariant token == source[..i] && NulFree(token)
    {
      token := token + [data[start + i]];
      i := i + 1;
    }
    CutAtNul(source, i);
  }

  lemma {:induction false} CutAtNul(s: seq<Byte>, n: nat)
    requires n <= |s| && NulFree(s[..n]) && (n < |s| ==> s[n] == 0)
    ensures UpToNul(s) == s[..n]
  {
  }

  lemma {:induction false} UpToNulStops(s: seq<Byte>, rest: seq<Byte>)
    ensures UpToNul(s + [0] + rest) == UpToNul(s)
  {
    var t := s + [0] + rest;
    if s != [] && s[0] != 0 {
      assert t[1..] == s[1..] + [0] + rest;
      UpToNulStops(s[1..], rest);
    }
  }

  // decodeMsg(token, token) on the memory of a token, which has its terminator behind it.
  method DecodeToken(token: seq<Byte>) returns (decoded: seq<Byte>)
    ensures decoded == UpToNul(PercentDecode.Decode(UpToNul(token)))
  {
    var msg := new Byte[|token| + 1](i => if 0 <= i < |token| then token[i] else 0);
    assert msg[..] == token + [0] + [];
    UpToNulStops(token, []);
    assert msg[|token|] == 0 && msg[|token|] in msg[..];
    PercentDecode.DecodeInPlace(msg);
    ghost var text := msg[..];
    ghost var d := PercentDecode.Decode(UpToNul(token));
    UpToNulStops(d, text[|d| + 1..]);
    decoded := CopyToken(msg, 0, msg.Length, text);
  }

  // splitRequestLine on the memory from `start` to `end`: the token before the next `sub`, or all
  // of it when there is no `sub` to look for, and the place behind it.
  method SplitRequestLine(data: array<Byte>, start: nat, end: nat, sub: Option<seq<Byte>>, ghost line: seq<Byte>)
    returns (token: seq<Byte>, next: nat)
    requires Holds(data, start, line) && end == start + |line|
    requires sub.Some? ==> |sub.value| == 1 && Find(line, sub.value).Some?
    ensures sub.None? ==> token == UpToNul(line) && next == end + 1
    ensures sub.Some? ==>
              (var i := Find(line, sub.value).value;
               token == UpToNul(line[..i]) && next == start + i + 1 <= end && Holds(data, next, line[i + 1..]))
  {
    var length := end - start;
    if sub.Some? {
      var found := Memmem(data, start, end, sub.value, line);
      length := found.value;
      HoldsPart(data, start, line, length + 1, |line|);
    }
    HoldsPart(data, start, line, 0, length);
    token := CopyToken(data, start, start + length, line[..length]);
    next := start + length + 1;
  }

  // The three calls of splitRequestLine.
  method Fields(data: array<Byte>, start: nat, end: nat, ghost line: seq<Byte>)
    returns (a: seq<Byte>, b: seq<Byte>, c: seq<Byte>)
    requires Holds(data, start, line) && end == start + |line| && SplitLine(line).Some?
    ensures var t := SplitLine(line).value;
            a == UpToNul(t.0) && b == UpToNul(t.1) && c == UpToNul(t.2)
  {
    var second, third;
    a, second := SplitRequestLine(data, start, end, Some([SPACE]), line);
    ghost var rest := line[Find(line, [SPACE]).value + 1..];
    b, third := SplitRequestLine(data, second, end, Some([SPACE]), rest);
    c, third := SplitRequestLine(data, third, end, None, rest[Find(rest, [SPACE]).value + 1..]);
  }

  // The key and the value of the header line at the front of the buffer.
  method HeaderFields(readBuf: Buffer, middle: nat, lineSize: nat) returns (key: seq<Byte>, value: seq<Byte>)
    requires readBuf.Valid() && middle + 2 <= lineSize <= readBuf.ReadableSize()
    ensures var line := readBuf.View().unread[..lineSize];
            key == UpToNul(line[..middle]) && value == UpToNul(line[middle + 2..])
  {
    HoldsFront(readBuf, lineSize);
    var start := readBuf.readPos;
    ghost var line := readBuf.View().unread[..lineSize];
    HoldsPart(readBuf.data, start, line, 0, middle);
    HoldsPart(readBuf.data, start, line, middle + 2, lineSize);
    key := CopyToken(readBuf.data, start, start + middle, line[..middle]);
    value := CopyToken(readBuf.data, start + middle + 2, start + lineSize, line[middle + 2..]);
  }

  function AddedHeader(r: Request, line: seq<Byte>, middle: nat): Request
    requires middle + 2 <= |line|
  {
    r.(headers := r.headers + [Header(UpToNul(line[..middle]), UpToNul(line[middle + 2..]))])
  }

  lemma HeaderCases(r: Request, input: seq<Byte>)
    requires Find(input, CRLF).Some? && !HeaderStep(r, input).Broken?
    ensures var end := Find(input, CRLF).value;
            var line := input[..end];
            if Find(line, COLON_SPACE).Some?
            then |r.headers| < HEADER_SIZE && Find(line, COLON_SPACE).value + 2 <= end
                 && HeaderStep(r, input) == Took(AddedHeader(r, line, Find(line, COLON_SPACE).value), input[end + 2..])
            else HeaderStep(r, input) == Took(r.(state := ParseReqDone), input[2..])
  {
  }

  class HttpRequest {
    var curState: State
    var verb: Option<seq<Byte>>
    var url: Option<seq<Byte>>
    var version: Option<seq<Byte>>
    var reqHeaders: array<Header>
    var reqHeadersNum: nat

    constructor ()
      ensures Valid() && View() == FRESH && fresh(reqHeaders)
    {
      curState := ParseReqLine;
      verb, url, version := None, None, None;
      reqHeaders := new Header[HEADER_SIZE](_ => Header([], []));
      reqHeadersNum := 0;
    }

    ghost predicate Valid()
      reads this
    {
      reqHeadersNum <= reqHeaders.Length == HEADER_SIZE
    }

    ghost function View(): Request
      requires Valid()
      reads this, reqHeaders
    {
      Request(curState, verb, url, version, reqHeaders[..reqHeadersNum])
    }

    method AddHeader(key: seq<Byte>, value: seq<Byte>)
      requires Valid() && reqHeadersNum < HEADER_SIZE
      modifies this`reqHeadersNum, reqHeaders
      ensures Valid() && View() == old(View()).(headers := old(View()).headers + [Header(key, value)])
    {
      reqHeaders[reqHeadersNum] := Header(key, value);
      reqHeadersNum := reqHeadersNum + 1;
    }

    // Store the fields of the first line of the buffer and skip it.
    method TakeLine(readBuf: Buffer, lineSize: nat)
      requires Valid() && readBuf.Valid() && lineSize + 2 <= readBuf.ReadableSize()
      requires SplitLine(readBuf.View().unread[..lineSize]).Some?
      modifies this`curState, this`verb, this`url, this`version, readBuf`readPos
      ensures Valid() && readBuf.Valid() && readBuf.View() == Sent(old(readBuf.View()), lineSize + 2)
      ensures var t := SplitLine(old(readBuf.View()).unread[..lineSize]).value;
              View() == Request(ParseReqHeaders, Some(UpToNul(t.0)), Some(UpToNul(t.1)), Some(UpToNul(t.2)),
                                old(View()).headers)
    {
      HoldsFront(readBuf, lineSize);
      ghost var line := readBuf.View().unread[..lineSize];
      var a, b, c := Fields(readBuf.data, readBuf.readPos, readBuf.readPos + lineSize, line);
      verb, url, version := Some(a), Some(b), Some(c);
      readBuf.Skip(lineSize + 2);
      curState := ParseReqHeaders;
    }

    // True when the parser took the line or the header off the buffer; the object and the buffer
    // then are what the step says, and untouched otherwise.
    method ParseLine(readBuf: Buffer) returns (flag: bool)
      requires Valid() && readBuf.Valid()
      requires !LineStep(View(), readBuf.View().unread).Broken?
      modifies this`curState, this`verb, this`url, this`version, readBuf`readPos
      ensures Valid() && readBuf.Valid()
      ensures LineStep(old(View()), old(readBuf.View().unread))
           == if flag then Took(View(), readBuf.View().unread) else Wait
      ensures !flag ==> View() == old(View()) && readBuf.View() == old(readBuf.View())
    {
      var end := readBuf.FindCRLF();
      var lineSize := end.value;
      if lineSize != 0 {
        TakeLine(readBuf, lineSize);
        return true;
      }
      return false;
    }

    // Store the header of the first line of the buffer, whose ": " is at `middle`, and skip it.
    method TakeHeader(readBuf: Buffer, middle: nat, lineSize: nat)
      requires Valid() && readBuf.Valid() && reqHeadersNum < HEADER_SIZE
      requires middle + 2 <= lineSize && lineSize + 2 <= readBuf.ReadableSize()
      modifies this`reqHeadersNum, reqHeaders, readBuf`readPos
      ensures Valid() && readBuf.Valid() && readBuf.View() == Sent(old(readBuf.View()), lineSize + 2)
      ensures View() == AddedHeader(old(View()), old(readBuf.View()).unread[..lineSize], middle)
    {
      var key, value := HeaderFields(readBuf, middle, lineSize);
      AddHeader(key, value);
      readBuf.Skip(lineSize + 2);
    }

    // The empty line, or any other line without ": ".
    method EndHeaders(readBuf: Buffer)
      requires Valid() && readBuf.Valid() && 2 <= readBuf.ReadableSize()
      modifies this`curState, readBuf`readPos
      ensures Valid() && readBuf.Valid() && readBuf.View() == Sent(old(readBuf.View()), 2)
      ensures View() == old(View()).(state := ParseReqDone)
    {
      readBuf.Skip(2);
      curState := ParseReqDone;
    }

    // memmem for ": " in the first line of the buffer.
    method FindColon(readBuf: Buffer, lineSize: nat) returns (middle: Option<nat>)
      requires readBuf.Valid() && lineSize <= readBuf.ReadableSize()
      ensures middle == Find(readBuf.View().unread[..lineSize], COLON_SPACE)
    {
      HoldsFront(readBuf, lineSize);
      middle := Memmem(readBuf.data, readBuf.readPos, readBuf.readPos + lineSize, COLON_SPACE,
                       readBuf.View().unread[..lineSize]);
    }

    method ParseHeader(readBuf: Buffer) returns (flag: bool)
      requires Valid() && readBuf.Valid()
      requires !HeaderStep(View(), readBuf.View().unread).Broken?
      modifies this`curState, this`reqHeadersNum, reqHeaders, readBuf`readPos
      ensures Valid() && readBuf.Valid()
      ensures HeaderStep(old(View()), old(readBuf.View().unread))
           == if flag then Took(View(), readBuf.View().unread) else Wait
      ensures !flag ==> View() == old(View()) && readBuf.View() == old(readBuf.View())
    {
      var end := readBuf.FindCRLF();
      if end.None? {
        return false;
      }
      HeaderCases(View(), readBuf.View().unread);
      var middle := FindColon(readBuf, end.value);
      if middle.Some? {
        TakeHeader(readBuf, middle.value, end.value);
      } else {
        EndHeaders(readBuf);
      }
      return true;
    }

    // The switch on the state.
    method Advance(readBuf: Buffer) returns (flag: bool)
      requires Valid() && readBuf.Valid() && curState != ParseReqDone
      requires !ParseStep(View(), readBuf.View().unread).Broken?
      modifies this, reqHeaders, readBuf`readPos
      ensures Valid() && readBuf.Valid() && reqHeaders == old(reqHeaders)
      ensures ParseStep(old(View()), old(readBuf.View().unread))
           == if flag then Took(View(), readBuf.View().unread) else Wait
      ensures !flag ==> View() == old(View()) && readBuf.View() == old(readBuf.View())
    {
      match curState
      case ParseReqLine => flag := ParseLine(readBuf);
      case ParseReqHeaders => flag := ParseHeader(readBuf);
    }

    // processHttpRequest, as far as it changes the request: the url of a GET is decoded where it is.
    method ProcessRequest()
      requires Valid() && Process(View()).Some?
      modifies this`url
      ensures Valid() && View() == Process(old(View())).value
    {
      if EqualsIgnoreCase(verb.value, GET) {
        var decoded := DecodeToken(url.value);
        url := Some(decoded);
      }
    }

    // The driver loop of parseHttpRequest.
    method Parse(readBuf: Buffer) returns (flag: bool)
      requires Valid() && readBuf.Valid()
      requires !Drive(View(), readBuf.View().unread).Crashed?
      modifies this, reqHeaders, readBuf`readPos
      ensures Valid() && readBuf.Valid() && reqHeaders == old(reqHeaders)
      ensures Drive(old(View()), old(readBuf.View().unread))
           == if flag then Finished(View(), readBuf.View().unread) else Waiting(View(), readBuf.View().unread)
    {
      ghost var r, input := View(), readBuf.View().unread;
      ghost var result := Drive(r, input);
      flag := true;
      while curState != ParseReqDone
        invariant Valid() && readBuf.Valid() && reqHeaders == old(reqHeaders)
        invariant r == View() && input == readBuf.View().unread
        invariant Drive(r, input) == result
        invariant flag
        decreases Rank(r.state), |input|
      {
        flag := Advance(readBuf);
        if !flag {
          return flag;
        }
        DriveStep(r, input);
        if curState == ParseReqDone {
          ProcessRequest();
        }
        r, input := View(), readBuf.View().unread;
      }
      curState := ParseReqLine;
      assert View() == r.(state := ParseReqLine);
    }
  }
}
