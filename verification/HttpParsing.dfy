// HttpRequest.c: the resumable request parser over the buffer.
module HttpParsing {
  import opened Common
  import opened Bytes
  import opened PercentDecode

  // ParseReqBody is left out: nothing ever sets it.
  datatype State = ParseReqLine | ParseReqHeaders | ParseReqDone

  datatype Header = Header(key: seq<Byte>, value: seq<Byte>)

  // None is a null pointer.
  datatype Request = Request(
    state: State,
    verb: Option<seq<Byte>>,
    url: Option<seq<Byte>>,
    version: Option<seq<Byte>>,
    headers: seq<Header>)

  const HEADER_SIZE: nat := 12
  const COLON_SPACE: seq<Byte> := [COLON, SPACE]

  // One parse step: it took bytes off the buffer, it has to wait for more, or it fails an
  // assertion or leaves the memory it owns.
  datatype Outcome = Took(request: Request, unread: seq<Byte>) | Wait | Broken

  // splitRequestLine, three times.
  function SplitLine(line: seq<Byte>): (r: Option<(seq<Byte>, seq<Byte>, seq<Byte>)>) {
    match Find(line, [SPACE])
    case None => None
    case Some(i) =>
      var rest := line[i + 1..];
      match Find(rest, [SPACE])
      case None => None
      case Some(j) => Some((line[..i], rest[..j], rest[j + 1..]))
  }

  // parseHttpRequestLine. Without a CRLF it computes with a null pointer; on an empty line it
  // consumes nothing.
  function LineStep(r: Request, input: seq<Byte>): Outcome {
    match Find(input, CRLF)
    case None => Broken
    case Some(0) => Wait
    case Some(end) =>
      match SplitLine(input[..end])
      case None => Broken
      case Some((verb, url, version)) =>
        Took(Request(ParseReqHeaders, Some(UpToNul(verb)), Some(UpToNul(url)), Some(UpToNul(version)), r.headers),
             input[end + 2..])
  }

  // parseHttpRequestHeader. A line without ": " ends the headers, and only two bytes of it are
  // consumed. A thirteenth header is written behind the array.
  function HeaderStep(r: Request, input: seq<Byte>): Outcome {
    match Find(input, CRLF)
    case None => Wait
    case Some(end) =>
      var line := input[..end];
      match Find(line, COLON_SPACE)
      case None => Took(r.(state := ParseReqDone), input[2..])
      case Some(middle) =>
        if |r.headers| >= HEADER_SIZE then Broken
        else
          var header := Header(UpToNul(line[..middle]), UpToNul(line[middle + 2..]));
          Took(r.(headers := r.headers + [header]), input[end + 2..])
  }

  function ParseStep(r: Request, input: seq<Byte>): (o: Outcome)
    requires !r.state.ParseReqDone?
    ensures o.Took? ==> |o.unread| < |input| && Rank(o.request.state) <= Rank(r.state)
    ensures o.Took? ==> o.unread == input[|input| - |o.unread|..]
  {
    if r.state.ParseReqLine? then LineStep(r, input) else HeaderStep(r, input)
  }

  function Rank(state: State): nat {
    match state
    case ParseReqLine => 2
    case ParseReqHeaders => 1
    case ParseReqDone => 0
  }

  // parseHttpRequest: true with the state set back, false with the parse to be resumed, or broken.
  datatype Result =
    | Finished(request: Request, unread: seq<Byte>)
    | Waiting(request: Request, unread: seq<Byte>)
    | Crashed

  // The steps of its loop, without what it does with the request once it is complete.
  function Scan(r: Request, input: seq<Byte>): (d: Result)
    decreases Rank(r.state), |input|
  {
    if r.state.ParseReqDone? then Finished(r.(state := ParseReqLine), input)
    else
      match ParseStep(r, input)
      case Wait => Waiting(r, input)
      case Broken => Crashed
      case Took(r', unread) => Scan(r', unread)
  }

  const GET: seq<Byte> := [103, 101, 116]

  function Lower(c: Byte): Byte {
    if 65 <= c <= 90 then c + 32 else c
  }

  // strcasecmp
  predicate EqualsIgnoreCase(s: seq<Byte>, t: seq<Byte>) {
    |s| == |t| && forall i :: 0 <= i < |s| ==> Lower(s[i]) == Lower(t[i])
  }

  // "get", each letter in either case.
  predicate IsGet(verb: seq<Byte>) {
    |verb| == 3 && (verb[0] == 71 || verb[0] == 103) && (verb[1] == 69 || verb[1] == 101)
    && (verb[2] == 84 || verb[2] == 116)
  }

  lemma GetInAnyCase(verb: seq<Byte>)
    ensures EqualsIgnoreCase(verb, GET) <==> IsGet(verb)
  {
    if EqualsIgnoreCase(verb, GET) {
      assert Lower(verb[0]) == Lower(GET[0]) && Lower(verb[1]) == Lower(GET[1]) && Lower(verb[2]) == Lower(GET[2]);
    }
  }

  // What processHttpRequest does to a complete request: it decodes the url of a GET in place. None
  // is a null pointer handed to strcasecmp or decodeMsg.
  function Process(r: Request): Option<Request> {
    if r.verb.None? then None
    else if !EqualsIgnoreCase(r.verb.value, GET) then Some(r)
    else if r.url.None? then None
    else Some(r.(url := Some(UpToNul(Decode(UpToNul(r.url.value))))))
  }

  // It leaves the request of any other method as it is, and of a GET only the url is another.
  lemma ProcessExactly(r: Request)
    ensures Process(r).None? <==> r.verb.None? || (IsGet(r.verb.value) && r.url.None?)
    ensures Process(r).Some? && !IsGet(r.verb.value) ==> Process(r) == Some(r)
    ensures Process(r).Some? && IsGet(r.verb.value) ==>
              Process(r) == Some(r.(url := Some(UpToNul(Decode(UpToNul(r.url.value))))))
  {
    if r.verb.Some? {
      GetInAnyCase(r.verb.value);
    }
  }

  function Drive(r: Request, input: seq<Byte>): (d: Result) {
    if r.state.ParseReqDone? then Scan(r, input)
    else
      match Scan(r, input)
      case Finished(complete, unread) =>
        (match Process(complete)
         case None => Crashed
         case Some(processed) => Finished(processed, unread))
      case d => d
  }

  // The loop once more: the step that completes the request is followed by its processing.
  lemma DriveStep(r: Request, input: seq<Byte>)
    requires !r.state.ParseReqDone? && ParseStep(r, input).Took?
    ensures var o := ParseStep(r, input);
            Drive(r, input)
            == if !o.request.state.ParseReqDone? then Drive(o.request, o.unread)
               else if Process(o.request).None? then Crashed
               else Drive(Process(o.request).value, o.unread)
  {
    var o := ParseStep(r, input);
    if o.request.state.ParseReqDone? {
      var complete := o.request.(state := ParseReqLine);
      assert Scan(r, input) == Finished(complete, o.unread);
      if Process(o.request).Some? {
        assert Process(complete) == Some(Process(o.request).value.(state := ParseReqLine));
      }
    }
  }

  const FRESH: Request := Request(ParseReqLine, None, None, None, [])

  // ---------------------------------------------------------------- searching

  predicate PairFree(s: seq<Byte>, a: Byte, b: Byte) {
    forall i: nat :: i + 1 < |s| ==> !(s[i] == a && s[i + 1] == b)
  }

  lemma FindByte(s: seq<Byte>, c: Byte, t: seq<Byte>)
    requires c !in s
    ensures Find(s + [c] + t, [c]) == Some(|s|)
  {
    var hay := s + [c] + t;
    assert hay[|s|..|s| + 1] == [c];
    forall j: nat | j < |s| ensures !At(hay, j, [c]) {
      assert hay[j..j + 1] == [s[j]];
    }
    FindUnique(hay, [c], |s|);
  }

  lemma FoundByte(hay: seq<Byte>, c: Byte)
    requires Find(hay, [c]).Some?
    ensures var i := Find(hay, [c]).value; i < |hay| && hay == hay[..i] + [c] + hay[i + 1..] && c !in hay[..i]
  {
    var i := Find(hay, [c]).value;
    assert hay[i..i + 1] == [c];
    forall j: nat | j < i ensures hay[j] != c {
      assert !At(hay, j, [c]);
      assert hay[j..j + 1] == [hay[j]];
    }
  }

  lemma FindPair(s: seq<Byte>, a: Byte, b: Byte, t: seq<Byte>)
    requires a != b && PairFree(s, a, b)
    ensures Find(s + [a, b] + t, [a, b]) == Some(|s|)
  {
    var hay := s + [a, b] + t;
    PairAt(hay, |s|, a, b);
    forall j: nat | j < |s| ensures !At(hay, j, [a, b]) {
      PairAt(hay, j, a, b);
    }
    FindUnique(hay, [a, b], |s|);
  }

  lemma FoundPair(hay: seq<Byte>, a: Byte, b: Byte)
    requires Find(hay, [a, b]).Some?
    ensures var i := Find(hay, [a, b]).value; i + 2 <= |hay| && hay == hay[..i] + [a, b] + hay[i + 2..]
  {
  }

  lemma PairFreeJoin(s: seq<Byte>, c: Byte, t: seq<Byte>, a: Byte, b: Byte)
    requires PairFree(s, a, b) && PairFree(t, a, b) && c != a && c != b
    ensures PairFree(s + [c] + t, a, b)
  {
  }

  // ---------------------------------------------------------------- printing a request

  function Join(verb: seq<Byte>, url: seq<Byte>, version: seq<Byte>): seq<Byte> {
    verb + [SPACE] + (url + [SPACE] + version)
  }

  function PrintHeaders(hs: seq<Header>): seq<Byte> {
    if hs == [] then [] else (hs[0].key + COLON_SPACE + hs[0].value) + CRLF + PrintHeaders(hs[1..])
  }

  // A request up to, but without, the empty line that ends it.
  function Head(verb: seq<Byte>, url: seq<Byte>, version: seq<Byte>, hs: seq<Header>): seq<Byte> {
    Join(verb, url, version) + CRLF + PrintHeaders(hs)
  }

  predicate OneLine(s: seq<Byte>) {
    PairFree(s, CR, LF)
  }

  predicate CleanHeader(h: Header) {
    OneLine(h.key) && OneLine(h.value) && PairFree(h.key, COLON, SPACE)
  }

  predicate CleanHeaders(hs: seq<Header>) {
    forall i :: 0 <= i < |hs| ==> CleanHeader(hs[i])
  }

  predicate CleanLine(verb: seq<Byte>, url: seq<Byte>, version: seq<Byte>) {
    OneLine(verb) && OneLine(url) && OneLine(version) && SPACE !in verb && SPACE !in url
  }

  lemma SplitJoined(verb: seq<Byte>, url: seq<Byte>, version: seq<Byte>)
    requires SPACE !in verb && SPACE !in url
    ensures SplitLine(Join(verb, url, version)) == Some((verb, url, version))
  {
    var line, rest := Join(verb, url, version), url + [SPACE] + version;
    FindByte(verb, SPACE, rest);
    assert line[|verb| + 1..] == rest && line[..|verb|] == verb;
    FindByte(url, SPACE, version);
    assert rest[|url| + 1..] == version && rest[..|url|] == url;
  }

  lemma JoinSplit(line: seq<Byte>)
    requires SplitLine(line).Some?
    ensures var (verb, url, version) := SplitLine(line).value;
            line == Join(verb, url, version) && SPACE !in verb && SPACE !in url
  {
    FoundByte(line, SPACE);
    FoundByte(line[Find(line, [SPACE]).value + 1..], SPACE);
  }

  lemma LineParsed(r: Request, verb: seq<Byte>, url: seq<Byte>, version: seq<Byte>, tail: seq<Byte>)
    requires CleanLine(verb, url, version)
    ensures LineStep(r, Join(verb, url, version) + CRLF + tail)
         == Took(Request(ParseReqHeaders, Some(UpToNul(verb)), Some(UpToNul(url)), Some(UpToNul(version)), r.headers),
                 tail)
  {
    var line := Join(verb, url, version);
    PairFreeJoin(url, SPACE, version, CR, LF);
    PairFreeJoin(verb, SPACE, url + [SPACE] + version, CR, LF);
    FindPair(line, CR, LF, tail);
    var input := line + CRLF + tail;
    assert input[..|line|] == line && input[|line| + 2..] == tail;
    SplitJoined(verb, url, version);
  }

  // A header as C strings hold it: each field ends at its first NUL.
  function Cut(h: Header): Header {
    Header(UpToNul(h.key), UpToNul(h.value))
  }

  function CutAll(hs: seq<Header>): (cut: seq<Header>)
    ensures |cut| == |hs| && forall i :: 0 <= i < |hs| ==> cut[i] == Cut(hs[i])
  {
    if hs == [] then [] else [Cut(hs[0])] + CutAll(hs[1..])
  }

  lemma HeaderLineFound(h: Header, tail: seq<Byte>)
    requires CleanHeader(h)
    ensures var line := h.key + COLON_SPACE + h.value;
            Find(line + CRLF + tail, CRLF) == Some(|line|) && Find(line, COLON_SPACE) == Some(|h.key|)
  {
    PairFreeJoin(h.key, COLON, [], CR, LF);
    assert h.key + [COLON] + [] == h.key + [COLON];
    PairFreeJoin(h.key + [COLON], SPACE, h.value, CR, LF);
    assert h.key + [COLON] + [SPACE] + h.value == h.key + COLON_SPACE + h.value;
    FindPair(h.key + COLON_SPACE + h.value, CR, LF, tail);
    FindPair(h.key, COLON, SPACE, h.value);
  }

  lemma HeaderParsed(r: Request, h: Header, tail: seq<Byte>)
    requires CleanHeader(h)
    ensures HeaderStep(r, h.key + COLON_SPACE + h.value + CRLF + tail)
         == if |r.headers| >= HEADER_SIZE then Broken else Took(r.(headers := r.headers + [Cut(h)]), tail)
  {
    HeaderLineFound(h, tail);
    var line := h.key + COLON_SPACE + h.value;
    var input := line + CRLF + tail;
    assert input[..|line|] == line && input[|line| + 2..] == tail;
    assert line[..|h.key|] == h.key && line[|h.key| + 2..] == h.value;
  }

  lemma PrintedFirst(hs: seq<Header>, t: seq<Byte>)
    requires hs != []
    ensures PrintHeaders(hs) + t == hs[0].key + COLON_SPACE + hs[0].value + CRLF + (PrintHeaders(hs[1..]) + t)
  {
  }

  lemma LastHeaderLine(r: Request, tail: seq<Byte>)
    requires r.state.ParseReqHeaders?
    ensures Scan(r, CRLF + tail) == Finished(r.(state := ParseReqLine), tail)
  {
  }

  lemma NextHeaderLine(r: Request, h: Header, tail: seq<Byte>)
    requires r.state.ParseReqHeaders? && CleanHeader(h)
    ensures Scan(r, h.key + COLON_SPACE + h.value + CRLF + tail)
         == if |r.headers| >= HEADER_SIZE then Crashed else Scan(r.(headers := r.headers + [Cut(h)]), tail)
  {
    HeaderParsed(r, h, tail);
  }

  function HeadersRead(r: Request, hs: seq<Header>, tail: seq<Byte>): Result {
    if |r.headers| + |hs| > HEADER_SIZE then Crashed
    else Finished(r.(state := ParseReqLine, headers := r.headers + CutAll(hs)), tail)
  }

  lemma CutNext(headers: seq<Header>, hs: seq<Header>)
    requires hs != []
    ensures headers + CutAll(hs) == headers + [Cut(hs[0])] + CutAll(hs[1..])
  {
    assert CutAll(hs) == [Cut(hs[0])] + CutAll(hs[1..]);
  }

  lemma HeadersReadNext(r: Request, hs: seq<Header>, tail: seq<Byte>)
    requires hs != []
    ensures HeadersRead(r.(headers := r.headers + [Cut(hs[0])]), hs[1..], tail) == HeadersRead(r, hs, tail)
  {
    CutNext(r.headers, hs);
  }

  lemma {:induction false} HeadersRoundTrip(r: Request, hs: seq<Header>, tail: seq<Byte>)
    requires r.state.ParseReqHeaders? && CleanHeaders(hs) && |r.headers| <= HEADER_SIZE
    ensures Scan(r, PrintHeaders(hs) + (CRLF + tail)) == HeadersRead(r, hs, tail)
    decreases |hs|
  {
    if hs == [] {
      LastHeaderLine(r, tail);
      assert PrintHeaders(hs) + (CRLF + tail) == CRLF + tail && r.headers + CutAll(hs) == r.headers;
    } else {
      PrintedFirst(hs, CRLF + tail);
      assert CleanHeader(hs[0]);
      NextHeaderLine(r, hs[0], PrintHeaders(hs[1..]) + (CRLF + tail));
      if |r.headers| < HEADER_SIZE {
        HeadersReadNext(r, hs, tail);
        HeadersRoundTrip(r.(headers := r.headers + [Cut(hs[0])]), hs[1..], tail);
      }
    }
  }

  function LineRead(verb: seq<Byte>, url: seq<Byte>, version: seq<Byte>, headers: seq<Header>): Request {
    Request(ParseReqLine, Some(UpToNul(verb)), Some(UpToNul(url)), Some(UpToNul(version)), headers)
  }

  lemma ScanRoundTrip(r: Request, verb: seq<Byte>, url: seq<Byte>, version: seq<Byte>, hs: seq<Header>, tail: seq<Byte>)
    requires r.state.ParseReqLine? && |r.headers| <= HEADER_SIZE
    requires CleanLine(verb, url, version) && CleanHeaders(hs)
    ensures Scan(r, Head(verb, url, version, hs) + CRLF + tail)
         == if |r.headers| + |hs| > HEADER_SIZE then Crashed
            else Finished(LineRead(verb, url, version, r.headers + CutAll(hs)), tail)
  {
    var rest := PrintHeaders(hs) + (CRLF + tail);
    assert Head(verb, url, version, hs) + CRLF + tail == Join(verb, url, version) + CRLF + rest;
    LineParsed(r, verb, url, version, rest);
    HeadersRoundTrip(LineRead(verb, url, version, r.headers).(state := ParseReqHeaders), hs, tail);
  }

  // The url as the request holds it afterwards.
  function ServedUrl(verb: seq<Byte>, url: seq<Byte>): seq<Byte> {
    if IsGet(verb) then UpToNul(Decode(url)) else url
  }

  // Parsing a printed request gives back every field in order, up to its first NUL, the url of a GET
  // decoded, and leaves exactly the bytes behind it, whatever request the parser object held before;
  // headers of that earlier request stay, and the two together must fit into the array of twelve.
  lemma RoundTrip(r: Request, verb: seq<Byte>, url: seq<Byte>, version: seq<Byte>, hs: seq<Header>, tail: seq<Byte>)
    requires r.state.ParseReqLine? && |r.headers| <= 12
    requires CleanLine(verb, url, version) && CleanHeaders(hs)
    ensures Drive(r, Head(verb, url, version, hs) + CRLF + tail)
         == if |r.headers| + |hs| > 12 then Crashed
            else
              var url' := ServedUrl(UpToNul(verb), UpToNul(url));
              Finished(LineRead(verb, url, version, r.headers + CutAll(hs)).(url := Some(url')), tail)
  {
    ScanRoundTrip(r, verb, url, version, hs, tail);
    GetInAnyCase(UpToNul(verb));
    NulFreeUnchanged(UpToNul(url));
  }

  lemma CutCleanHeaders(hs: seq<Header>)
    requires forall i :: 0 <= i < |hs| ==> NulFree(hs[i].key) && NulFree(hs[i].value)
    ensures CutAll(hs) == hs
  {
    forall i | 0 <= i < |hs| ensures Cut(hs[i]) == hs[i] {
      NulFreeUnchanged(hs[i].key);
      NulFreeUnchanged(hs[i].value);
    }
  }

  const SAMPLE_LINE: seq<Byte> := [71, 69, 84, 32, 47, 37, 50, 102, 32, 72, 84, 84, 80, 47, 49, 46, 49, 13, 10]
  const SAMPLE_HEADER: seq<Byte> := [72, 111, 115, 116, 58, 32, 97, 13, 10]

  lemma SamplePrinted()
    ensures Head([71, 69, 84], [47, 37, 50, 102], [72, 84, 84, 80, 47, 49, 46, 49], [Header([72, 111, 115, 116], [97])])
            + CRLF + []
         == SAMPLE_LINE + SAMPLE_HEADER + [13, 10]
  {
    var h := Header([72, 111, 115, 116], [97]);
    assert [h][1..] == [] && PrintHeaders([]) == [];
    assert PrintHeaders([h]) == (h.key + COLON_SPACE + h.value) + CRLF + [];
    assert PrintHeaders([h]) == SAMPLE_HEADER;
    assert Join([71, 69, 84], [47, 37, 50, 102], [72, 84, 84, 80, 47, 49, 46, 49]) + CRLF == SAMPLE_LINE;
  }

  lemma SampleDecoded()
    ensures Encodes([47, 37, 50, 102], [47, 47])
  {
    var e: seq<Byte>, s: seq<Byte> := [47, 37, 50, 102], [47, 47];
    assert e[1..] == [37, 50, 102] && e[1..][3..] == [] && s[1..] == [47] && s[1..][1..] == [];
    assert DigitFor(50, 2) && DigitFor(102, 15);
    assert Encodes(e[1..], s[1..]);
  }

  lemma SampleStored(headers: seq<Header>)
    ensures LineRead([71, 69, 84], [47, 47], [72, 84, 84, 80, 47, 49, 46, 49], headers)
         == Request(ParseReqLine, Some([71, 69, 84]), Some([47, 47]), Some([72, 84, 84, 80, 47, 49, 46, 49]), headers)
  {
    NulFreeUnchanged([71, 69, 84]);
    NulFreeUnchanged([47, 47]);
    NulFreeUnchanged([72, 84, 84, 80, 47, 49, 46, 49]);
  }

  lemma SampleClean()
    ensures IsGet([71, 69, 84]) && SPACE !in [47, 37, 50, 102] && OneLine([47, 37, 50, 102])
    ensures OneLine([72, 84, 84, 80, 47, 49, 46, 49]) && CleanHeaders([Header([72, 111, 115, 116], [97])])
    ensures CutAll([Header([72, 111, 115, 116], [97])]) == [Header([72, 111, 115, 116], [97])]
  {
    CutCleanHeaders([Header([72, 111, 115, 116], [97])]);
  }

  // The bytes themselves: "GET /%2f HTTP/1.1", "Host: a" and the empty line, each with CR LF behind it.
  lemma SampleRequest()
    ensures Drive(FRESH, SAMPLE_LINE + SAMPLE_HEADER + [13, 10])
         == Finished(Request(ParseReqLine, Some([71, 69, 84]), Some([47, 47]), Some([72, 84, 84, 80, 47, 49, 46, 49]),
                             [Header([72, 111, 115, 116], [97])]), [])
  {
    SamplePrinted();
    SampleDecoded();
    SampleClean();
    SampleStored([Header([72, 111, 115, 116], [97])]);
    ReadsAsPath(SAMPLE_LINE + SAMPLE_HEADER + [13, 10], [71, 69, 84], [47, 37, 50, 102], [47, 47],
                [72, 84, 84, 80, 47, 49, 46, 49], [Header([72, 111, 115, 116], [97])]);
  }

  lemma ReadsAsPath(input: seq<Byte>, verb: seq<Byte>, url: seq<Byte>, path: seq<Byte>,
      version: seq<Byte>, hs: seq<Header>)
    requires input == Head(verb, url, version, hs) + CRLF + [] && |hs| <= 12 && CutAll(hs) == hs
    requires IsGet(verb) && OneLine(version) && CleanHeaders(hs)
    requires Encodes(url, path) && NulFree(path) && SPACE !in url && OneLine(url)
    ensures Drive(FRESH, input) == Finished(LineRead(verb, path, version, hs), [])
  {
    PathSurvives(FRESH, verb, url, path, version, hs, []);
    assert FRESH.headers + hs == hs;
  }

  // ---------------------------------------------------------------- reading back

  // `input` is `p`, then a line without ": ", of which two bytes are gone in `unread`. That line
  // is the empty one, or else the rest of it is still there.
  ghost predicate Ended(p: seq<Byte>, input: seq<Byte>, unread: seq<Byte>) {
    && p <= input
    && var rest := input[|p|..];
       && Find(rest, CRLF).Some? && Find(rest[..Find(rest, CRLF).value], COLON_SPACE).None?
       && unread == rest[2..]
  }

  lemma EndedBehind(front: seq<Byte>, p: seq<Byte>, input: seq<Byte>, unread: seq<Byte>)
    requires Ended(p, input, unread)
    ensures Ended(front + p, front + input, unread)
  {
    assert input == p + input[|p|..];
    assert front + input == front + p + input[|p|..];
    assert (front + input)[|front + p|..] == input[|p|..];
  }

  lemma CleanSlice(s: seq<Byte>, i: nat, j: nat)
    requires i <= j <= |s| && NulFree(s) && PairFree(s, CR, LF)
    ensures OneLine(s[i..j]) && NulFree(s[i..j]) && UpToNul(s[i..j]) == s[i..j]
  {
  }

  lemma BeforePair(hay: seq<Byte>, a: Byte, b: Byte)
    requires Find(hay, [a, b]).Some?
    ensures PairFree(hay[..Find(hay, [a, b]).value], a, b)
  {
    var i := Find(hay, [a, b]).value;
    forall k: nat | k + 1 < i ensures !(hay[k] == a && hay[k + 1] == b) {
      assert !At(hay, k, [a, b]);
      PairAt(hay, k, a, b);
    }
  }

  lemma HeaderLineReadBack(r: Request, input: seq<Byte>)
    requires NulFree(input) && HeaderStep(r, input).Took? && HeaderStep(r, input).request.state == r.state
    requires !r.state.ParseReqDone?
    ensures var o := HeaderStep(r, input);
            && |o.request.headers| == |r.headers| + 1
            && o.request == r.(headers := r.headers + [o.request.headers[|r.headers|]])
            && var h := o.request.headers[|r.headers|];
               CleanHeader(h) && input == h.key + COLON_SPACE + h.value + CRLF + o.unread
  {
    FoundPair(input, CR, LF);
    BeforePair(input, CR, LF);
    var line := input[..Find(input, CRLF).value];
    FoundPair(line, COLON, SPACE);
    BeforePair(line, COLON, SPACE);
    var middle := Find(line, COLON_SPACE).value;
    assert NulFree(line);
    CleanSlice(line, 0, middle);
    CleanSlice(line, middle + 2, |line|);
    assert line[0..middle] == line[..middle] && line[middle + 2..|line|] == line[middle + 2..];
  }

  lemma PrintedNext(h: Header, hs: seq<Header>)
    ensures PrintHeaders([h] + hs) == h.key + COLON_SPACE + h.value + CRLF + PrintHeaders(hs)
  {
  }

  // `d` holds what `r` held, with `hs` added and the state set back.
  predicate Added(r: Request, hs: seq<Header>, d: Request) {
    d == r.(state := ParseReqLine, headers := r.headers + hs)
  }

  lemma AddedNext(r: Request, h: Header, hs: seq<Header>, d: Request)
    requires Added(r.(headers := r.headers + [h]), hs, d)
    ensures Added(r, [h] + hs, d) && d.headers[|r.headers|..] == [h] + hs
  {
  }

  lemma {:induction false} HeadersReadBack(r: Request, input: seq<Byte>)
    requires r.state.ParseReqHeaders? && NulFree(input) && Scan(r, input).Finished?
    ensures var d := Scan(r, input);
            && |r.headers| <= |d.request.headers|
            && var hs := d.request.headers[|r.headers|..];
               Added(r, hs, d.request) && CleanHeaders(hs) && Ended(PrintHeaders(hs), input, d.unread)
    decreases |input|
  {
    var o := HeaderStep(r, input);
    if o.request.state.ParseReqDone? {
      assert r.headers[|r.headers|..] == [] && r.headers + [] == r.headers && input[0..] == input;
    } else {
      HeaderLineReadBack(r, input);
      HeadersReadBack(o.request, o.unread);
      var d := Scan(r, input);
      var h, more := o.request.headers[|r.headers|], d.request.headers[|o.request.headers|..];
      AddedNext(r, h, more, d.request);
      PrintedNext(h, more);
      EndedBehind(h.key + COLON_SPACE + h.value + CRLF, PrintHeaders(more), o.unread, d.unread);
    }
  }

  lemma JoinParts(verb: seq<Byte>, url: seq<Byte>, version: seq<Byte>)
    ensures var line, i, j := Join(verb, url, version), |verb|, |verb| + 1 + |url|;
            && line[0..i] == verb && line[i + 1..j] == url && line[j + 1..|line|] == version
  {
  }

  lemma PartsClean(line: seq<Byte>, verb: seq<Byte>, url: seq<Byte>, version: seq<Byte>)
    requires NulFree(line) && PairFree(line, CR, LF) && line == Join(verb, url, version)
    ensures OneLine(verb) && OneLine(url) && OneLine(version)
    ensures UpToNul(verb) == verb && UpToNul(url) == url && UpToNul(version) == version
  {
    JoinParts(verb, url, version);
    var i, j := |verb|, |verb| + 1 + |url|;
    CleanSlice(line, 0, i);
    CleanSlice(line, i + 1, j);
    CleanSlice(line, j + 1, |line|);
  }

  lemma FieldsClean(line: seq<Byte>)
    requires NulFree(line) && PairFree(line, CR, LF) && SplitLine(line).Some?
    ensures var (verb, url, version) := SplitLine(line).value;
            && CleanLine(verb, url, version) && line == Join(verb, url, version)
            && UpToNul(verb) == verb && UpToNul(url) == url && UpToNul(version) == version
  {
    JoinSplit(line);
    var (verb, url, version) := SplitLine(line).value;
    PartsClean(line, verb, url, version);
  }

  // The request line stored in `d`.
  predicate LineStored(d: Request) {
    d.verb.Some? && d.url.Some? && d.version.Some? && CleanLine(d.verb.value, d.url.value, d.version.value)
  }

  function PrintLine(d: Request): seq<Byte>
    requires LineStored(d)
  {
    Join(d.verb.value, d.url.value, d.version.value) + CRLF
  }

  lemma LineReadBack(r: Request, input: seq<Byte>)
    requires NulFree(input) && LineStep(r, input).Took?
    ensures var o := LineStep(r, input);
            LineStored(o.request) && input == PrintLine(o.request) + o.unread && o.request.headers == r.headers
            && o.request.state.ParseReqHeaders?
  {
    FoundPair(input, CR, LF);
    BeforePair(input, CR, LF);
    var line := input[..Find(input, CRLF).value];
    assert NulFree(line);
    FieldsClean(line);
  }

  // Printing undoes parsing: whatever NUL-free bytes the parser accepts are the print of the
  // fields it read, then a line without ": " of which the first two bytes are gone. Of a GET the
  // request then holds the url decoded.
  lemma ReadBack(r: Request, input: seq<Byte>)
    requires r.state.ParseReqLine? && NulFree(input) && Drive(r, input).Finished?
    ensures Scan(r, input).Finished?
    ensures var d := Scan(r, input);
            && LineStored(d.request) && r.headers <= d.request.headers && d.request.state == ParseReqLine
            && (var hs := d.request.headers[|r.headers|..];
                CleanHeaders(hs) && Ended(PrintLine(d.request) + PrintHeaders(hs), input, d.unread))
            && var url := ServedUrl(d.request.verb.value, d.request.url.value);
               Drive(r, input) == Finished(d.request.(url := Some(url)), d.unread)
  {
    LineReadBack(r, input);
    var o := LineStep(r, input);
    assert NulFree(o.unread);
    HeadersReadBack(o.request, o.unread);
    var d := Scan(r, input);
    EndedBehind(PrintLine(o.request), PrintHeaders(d.request.headers[|r.headers|..]), o.unread, d.unread);
    GetInAnyCase(d.request.verb.value);
    NulFreeUnchanged(d.request.url.value);
  }

  // ---------------------------------------------------------------- input in pieces

  function Behind(o: Outcome, more: seq<Byte>): Outcome {
    if o.Took? then Took(o.request, o.unread + more) else o
  }

  lemma CutStable(a: seq<Byte>, b: seq<Byte>, i: nat)
    requires i + 2 <= |a|
    ensures (a + b)[..i] == a[..i] && (a + b)[i + 2..] == a[i + 2..] + b && (a + b)[2..] == a[2..] + b
  {
  }

  // Once a whole line is there, more bytes behind it change nothing.
  lemma StepStable(r: Request, a: seq<Byte>, b: seq<Byte>)
    requires !r.state.ParseReqDone? && Find(a, CRLF).Some?
    ensures ParseStep(r, a + b) == Behind(ParseStep(r, a), b)
  {
    FindStable(a, b, CRLF);
    CutStable(a, b, Find(a, CRLF).value);
  }

  function ResumeScan(d: Result, more: seq<Byte>): Result {
    match d
    case Waiting(r, unread) => Scan(r, unread + more)
    case Finished(r, unread) => Finished(r, unread + more)
    case Crashed => Crashed
  }

  lemma {:induction false} SplitScan(r: Request, a: seq<Byte>, b: seq<Byte>)
    requires r.state.ParseReqLine? ==> Find(a, CRLF).Some?
    ensures ResumeScan(Scan(r, a), b) == Scan(r, a + b)
    decreases Rank(r.state), |a|
  {
    if !r.state.ParseReqDone? && Find(a, CRLF).Some? {
      StepStable(r, a, b);
      var o := ParseStep(r, a);
      if o.Took? {
        SplitScan(o.request, o.unread, b);
      }
    }
  }

  lemma {:induction false} WaitingIsUnfinished(r: Request, input: seq<Byte>)
    requires Scan(r, input).Waiting?
    ensures !Scan(r, input).request.state.ParseReqDone?
    ensures !r.state.ParseReqLine? ==> Scan(r, input).request.state.ParseReqHeaders?
    decreases Rank(r.state), |input|
  {
    var o := ParseStep(r, input);
    if o.Took? {
      WaitingIsUnfinished(o.request, o.unread);
    }
  }

  // Calling the parser again with more bytes behind what the last call left.
  function Resume(d: Result, more: seq<Byte>): Result {
    match d
    case Waiting(r, unread) => Drive(r, unread + more)
    case Finished(r, unread) => Finished(r, unread + more)
    case Crashed => Crashed
  }

  // The place where the input is split does not matter, once the request line is in.
  lemma SplitAnywhere(r: Request, a: seq<Byte>, b: seq<Byte>)
    requires r.state.ParseReqLine? ==> Find(a, CRLF).Some?
    ensures Resume(Drive(r, a), b) == Drive(r, a + b)
  {
    SplitScan(r, a, b);
    if Scan(r, a).Waiting? {
      WaitingIsUnfinished(r, a);
    }
  }

  // Inside the request line it does: the first piece must hold the whole of it.
  lemma SplitInsideLine(r: Request, a: seq<Byte>, b: seq<Byte>)
    requires r.state.ParseReqLine? && !Drive(r, a + b).Crashed?
    ensures Resume(Drive(r, a), b) == Drive(r, a + b) <==> Find(a, CRLF).Some?
  {
    if Find(a, CRLF).Some? {
      SplitAnywhere(r, a, b);
    }
  }

  function Concat(chunks: seq<seq<Byte>>): seq<Byte> {
    if chunks == [] then [] else chunks[0] + Concat(chunks[1..])
  }

  // The parser called once for every piece that arrives.
  function Feed(r: Request, unread: seq<Byte>, chunks: seq<seq<Byte>>): Result
    decreases |chunks|
  {
    if chunks == [] then Drive(r, unread)
    else
      match Drive(r, unread + chunks[0])
      case Waiting(r', rest) => Feed(r', rest, chunks[1..])
      case Finished(r', rest) => Finished(r', rest + Concat(chunks[1..]))
      case Crashed => Crashed
  }

  // However the bytes of the headers are cut up, the parser arrives at the same headers, the same
  // state and the same leftover as on the whole of them.
  lemma {:induction false} ChunksDoNotMatter(r: Request, unread: seq<Byte>, chunks: seq<seq<Byte>>)
    requires !r.state.ParseReqLine?
    ensures Feed(r, unread, chunks) == Drive(r, unread + Concat(chunks))
    decreases |chunks|
  {
    if chunks == [] {
      assert unread + [] == unread;
    } else {
      var first, others := unread + chunks[0], Concat(chunks[1..]);
      SplitAnywhere(r, first, others);
      assert unread + Concat(chunks) == first + others;
      var d := Drive(r, first);
      if d.Waiting? {
        WaitingIsUnfinished(r, first);
        ChunksDoNotMatter(d.request, d.unread, chunks[1..]);
      }
    }
  }

  // ---------------------------------------------------------------- the request line

  // The parser waits on the request line exactly when the input starts with an empty line; it
  // consumes nothing then, so no later bytes ever get it past that point.
  lemma EmptyFirstLine(r: Request, input: seq<Byte>, more: seq<Byte>)
    requires r.state.ParseReqLine?
    ensures CRLF <= input ==> Drive(r, input + more) == Waiting(r, input + more)
    ensures Drive(r, input) == Waiting(r, input) ==> CRLF <= input
  {
    if CRLF <= input {
      PairAt(input + more, 0, CR, LF);
      FindUnique(input + more, CRLF, 0);
    }
    if Find(input, CRLF) == Some(0) {
      PairAt(input, 0, CR, LF);
    }
    if LineStep(r, input).Took? && Scan(r, input).Waiting? {
      WaitingIsUnfinished(LineStep(r, input).request, LineStep(r, input).unread);
    }
  }

  function Count(s: seq<Byte>, c: Byte): (n: nat)
    ensures n == 0 <==> c !in s
  {
    if s == [] then 0 else (if s[0] == c then 1 else 0) + Count(s[1..], c)
  }

  lemma {:induction false} CountConcat(s: seq<Byte>, t: seq<Byte>, c: Byte)
    ensures Count(s + t, c) == Count(s, c) + Count(t, c)
  {
    if s == [] {
      assert s + t == t;
    } else {
      assert (s + t)[1..] == s[1..] + t;
      CountConcat(s[1..], t, c);
    }
  }

  lemma FindCount(s: seq<Byte>, c: Byte)
    ensures Find(s, [c]).Some? <==> Count(s, c) >= 1
    ensures Find(s, [c]).Some? ==> Find(s, [c]).value < |s| && Count(s, c) == 1 + Count(s[Find(s, [c]).value + 1..], c)
  {
    if Find(s, [c]).Some? {
      FoundByte(s, c);
      var i := Find(s, [c]).value;
      CountConcat(s[..i] + [c], s[i + 1..], c);
      CountConcat(s[..i], [c], c);
    } else if c in s {
      var i :| 0 <= i < |s| && s[i] == c;
      assert s[i..i + 1] == [c];
      assert At(s, i, [c]);
    }
  }

  // The assertion in splitRequestLine and the null pointer of a missing CRLF: the request line is
  // parsed without harm exactly when it is complete, and is empty or has two spaces.
  lemma LineIsSafe(r: Request, input: seq<Byte>)
    ensures !LineStep(r, input).Broken?
       <==> (Find(input, CRLF).Some?
             && (Find(input, CRLF).value == 0 || Count(input[..Find(input, CRLF).value], SPACE) >= 2))
  {
    if Find(input, CRLF).Some? {
      var line := input[..Find(input, CRLF).value];
      FindCount(line, SPACE);
      if Find(line, [SPACE]).Some? {
        FindCount(line[Find(line, [SPACE]).value + 1..], SPACE);
      }
    }
  }

  // ---------------------------------------------------------------- the url

  // A path that the client of a GET percent-encodes, so that the url is one word of one line, arrives in
  // the request as it was.
  lemma PathSurvives(r: Request, verb: seq<Byte>, url: seq<Byte>, path: seq<Byte>,
      version: seq<Byte>, hs: seq<Header>, tail: seq<Byte>)
    requires r.state.ParseReqLine? && |r.headers| + |hs| <= 12
    requires IsGet(verb) && OneLine(version) && CleanHeaders(hs)
    requires Encodes(url, path) && NulFree(path) && SPACE !in url && OneLine(url)
    ensures Drive(r, Head(verb, url, version, hs) + CRLF + tail)
         == Finished(LineRead(verb, path, version, r.headers + CutAll(hs)), tail)
  {
    RoundTrip(r, verb, url, version, hs, tail);
    PathServed(verb, url, path);
    PathStored(verb, url, path, version, r.headers + CutAll(hs));
  }

  lemma PathServed(verb: seq<Byte>, url: seq<Byte>, path: seq<Byte>)
    requires IsGet(verb) && Encodes(url, path) && NulFree(path)
    ensures ServedUrl(UpToNul(verb), UpToNul(url)) == path
  {
    EncodedHasNoNul(url, path);
    DecodeEncode(url, path);
    NulFreeUnchanged(verb);
    NulFreeUnchanged(url);
    NulFreeUnchanged(path);
  }

  lemma PathStored(verb: seq<Byte>, url: seq<Byte>, path: seq<Byte>, version: seq<Byte>, headers: seq<Header>)
    requires NulFree(path)
    ensures LineRead(verb, url, version, headers).(url := Some(path)) == LineRead(verb, path, version, headers)
  {
    NulFreeUnchanged(path);
  }
}
