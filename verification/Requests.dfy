/** Requests on the wire: printing, parsing, and exactly when the one undoes the other. */
module Requests {
  import opened Wrappers
  import opened Text
  import opened Messages
  import opened Base64
  import opened Tokens
  import opened Serializing

  datatype BaseMessage = BaseMessage(id: string, key: string, clientUuid: string)

  datatype ServerRequest =
    | Put(base: BaseMessage, value: Bytes)
    | Get(base: BaseMessage)
    | Delete(base: BaseMessage)
    | Subscribe(base: BaseMessage)
    | Unsubscribe(base: BaseMessage)
    | Trace(base: BaseMessage)
    | Health(base: BaseMessage)
    | Version(base: BaseMessage)

  /** `impl Display for ServerRequest` */
  function Display(r: ServerRequest): string
  {
    match r
    case Put(b, value) => "PUT " + b.id + " " + b.clientUuid + " " + b.key + " " + Encode(value)
    case Get(b) => "GET " + b.id + " " + b.clientUuid + " " + b.key
    case Delete(b) => "DEL " + b.id + " " + b.clientUuid + " " + b.key
    case Subscribe(b) => "SUB " + b.id + " " + b.clientUuid + " " + b.key
    case Unsubscribe(b) => "UNSUB " + b.id + " " + b.clientUuid + " " + b.key
    case Trace(b) => "TRACE " + b.id + " " + b.clientUuid + " " + b.key
    case Health(b) => "HEALTH " + b.id + " " + b.clientUuid + " HK"
    case Version(b) => "VERSION " + b.id + " " + b.clientUuid + " DISCARDME"
  }

  /** What a line of at most five pieces says. */
  function Read(input: string): Outcome<ServerRequest>
  {
    var p := SplitN(input, 5, ' ');
    if |p| < 2 then Failed(Missing("id"))
    else if |p| < 3 then Failed(Missing("client-uuid"))
    else if |p| < 4 then Failed(Missing("key"))
    else ReadPieces(p)
  }

  function ReadPieces(p: seq<string>): Outcome<ServerRequest>
    requires 4 <= |p| <= 5
  {
    var base := BaseMessage(p[1], p[3], p[2]);
    if p[0] == "PUT" then
      if |p| == 4 then Failed(Missing("value"))
      else if p[4] == "" then Parsed(Put(base, []))
      else if Decode(p[4]).Some? then Parsed(Put(base, Decode(p[4]).value))
      else Panicked
    else if p[0] == "GET" then Parsed(Get(base))
    else if p[0] == "DEL" then Parsed(Delete(base))
    else if p[0] == "SUB" then Parsed(Subscribe(base))
    else if p[0] == "UNSUB" then Parsed(Unsubscribe(base))
    else if p[0] == "TRACE" then Parsed(Trace(base))
    else if p[0] == "HEALTH" then Parsed(Health(base))
    else if p[0] == "VERSION" then Parsed(Version(base))
    else Failed(UnknownCommand)
  }

  /** `impl FromStr for ServerRequest`: takes the pieces one after the other. */
  method FromStr(input: string) returns (r: Outcome<ServerRequest>)
    ensures r == Read(input)
  {
    var parts := new Parts(SplitN(input, 5, ' '));
    var request := parts.Next();
    if request.None? { return Failed(Missing("command")); }
    var id := parts.Next();
    if id.None? { return Failed(Missing("id")); }
    var clientUuid := parts.Next();
    if clientUuid.None? { return Failed(Missing("client-uuid")); }
    var key := parts.Next();
    if key.None? { return Failed(Missing("key")); }
    var base := BaseMessage(id.value, key.value, clientUuid.value);
    match request.value {
      case "PUT" =>
        var value := parts.Next();
        if value.None? { return Failed(Missing("value")); }
        if value.value == "" { return Parsed(Put(base, [])); }
        var data := Decode(value.value);
        if data.None? { return Panicked; }
        r := Parsed(Put(base, data.value));
      case "GET" => r := Parsed(Get(base));
      case "DEL" => r := Parsed(Delete(base));
      case "SUB" => r := Parsed(Subscribe(base));
      case "UNSUB" => r := Parsed(Unsubscribe(base));
      case "TRACE" => r := Parsed(Trace(base));
      case "HEALTH" => r := Parsed(Health(base));
      case "VERSION" => r := Parsed(Version(base));
      case _ => r := Failed(UnknownCommand);
    }
  }

  // ---- when reading undoes printing ----

  function Command(r: ServerRequest): string
  {
    match r
    case Put(_, _) => "PUT"
    case Get(_) => "GET"
    case Delete(_) => "DEL"
    case Subscribe(_) => "SUB"
    case Unsubscribe(_) => "UNSUB"
    case Trace(_) => "TRACE"
    case Health(_) => "HEALTH"
    case Version(_) => "VERSION"
  }

  /** The key that goes on the wire. */
  function PrintedKey(r: ServerRequest): string
  {
    match r
    case Health(_) => "HK"
    case Version(_) => "DISCARDME"
    case _ => r.base.key
  }

  function Pieces(r: ServerRequest): seq<string>
  {
    [Command(r), r.base.id, r.base.clientUuid, PrintedKey(r)] + if r.Put? then [Encode(r.value)] else []
  }

  /** Fields without spaces; the key of a health or version request is a fixed word. */
  predicate SpaceFree(r: ServerRequest)
  {
    && ' ' !in r.base.id && ' ' !in r.base.clientUuid && ' ' !in r.base.key
    && r.base.key == PrintedKey(r)
  }

  lemma FourJoined(a: string, b: string, c: string, d: string)
    ensures JoinWith([a, b, c, d], ' ') == a + " " + b + " " + c + " " + d
  {
    assert [a, b, c, d][1..] == [b, c, d] && [b, c, d][1..] == [c, d] && [c, d][1..] == [d];
    assert JoinWith([c, d], ' ') == c + " " + d;
    assert JoinWith([b, c, d], ' ') == b + " " + (c + " " + d);
    assert a + " " + (b + " " + (c + " " + d)) == a + " " + b + " " + c + " " + d;
  }

  lemma FiveJoined(a: string, b: string, c: string, d: string, e: string)
    ensures JoinWith([a, b, c, d, e], ' ') == a + " " + b + " " + c + " " + d + " " + e
  {
    FourJoined(b, c, d, e);
    assert [a, b, c, d, e][1..] == [b, c, d, e];
    assert a + " " + (b + " " + c + " " + d + " " + e) == a + " " + b + " " + c + " " + d + " " + e;
  }

  lemma DisplayJoins(r: ServerRequest)
    ensures Display(r) == JoinWith(Pieces(r), ' ')
  {
    var b := r.base;
    if r.Put? {
      FiveJoined("PUT", b.id, b.clientUuid, b.key, Encode(r.value));
      assert "PUT" + " " == "PUT ";
      assert Pieces(r) == ["PUT", b.id, b.clientUuid, b.key, Encode(r.value)];
    } else {
      assert Pieces(r) == [Command(r), b.id, b.clientUuid, PrintedKey(r)];
      FourJoined(Command(r), b.id, b.clientUuid, PrintedKey(r));
      FourWords(r);
    }
  }

  lemma FourWords(r: ServerRequest)
    requires !r.Put?
    ensures Display(r) == Command(r) + " " + r.base.id + " " + r.base.clientUuid + " " + PrintedKey(r)
  {
    match r {
      case Get(b) => assert "GET" + " " == "GET ";
      case Delete(b) => assert "DEL" + " " == "DEL ";
      case Subscribe(b) => assert "SUB" + " " == "SUB ";
      case Unsubscribe(b) => assert "UNSUB" + " " == "UNSUB ";
      case Trace(b) => assert "TRACE" + " " == "TRACE ";
      case Health(b) => assert "HEALTH" + " " == "HEALTH " && " HK" == " " + "HK";
      case Version(b) => assert "VERSION" + " " == "VERSION " && " DISCARDME" == " " + "DISCARDME";
    }
  }

  lemma NoSpaceInBase64(b: Bytes)
    ensures ' ' !in Encode(b)
  {
    EncodedText(b);
  }

  /** Space-free pieces come back one by one. */
  lemma PiecesComeBack(r: ServerRequest)
    requires ' ' !in r.base.id && ' ' !in r.base.clientUuid && ' ' !in PrintedKey(r)
    ensures SplitN(Display(r), 5, ' ') == Pieces(r)
  {
    DisplayJoins(r);
    if r.Put? { NoSpaceInBase64(r.value); }
    SplitNJoined(Pieces(r), 5, ' ');
  }

  lemma PiecesRead(r: ServerRequest)
    ensures ReadPieces(Pieces(r)) == Parsed(r) <==> r.base.key == PrintedKey(r)
    ensures ReadPieces(Pieces(r)).Parsed?
  {
    if r.Put? {
      DecodeEncode(r.value);
      EncodedText(r.value);
    }
  }

  /** What is read has no space in its fields. */
  lemma ReadIsSpaceFree(input: string)
    ensures Read(input).Parsed? ==>
      var b := Read(input).value.base;
      ' ' !in b.id && ' ' !in b.clientUuid && ' ' !in b.key
  {
    var p := SplitN(input, 5, ' ');
    if |p| >= 4 {
      SplitNFree(input, 5, ' ', 1);
      SplitNFree(input, 5, ' ', 2);
      SplitNFree(input, 5, ' ', 3);
    }
  }

  /** A printed request is read back as itself exactly if its fields hold no space and a health or
      version request carries the fixed key; the value of a put may be any bytes, none included. */
  lemma RequestRoundTrip(r: ServerRequest)
    ensures Read(Display(r)) == Parsed(r) <==> SpaceFree(r)
  {
    ReadIsSpaceFree(Display(r));
    if ' ' !in r.base.id && ' ' !in r.base.clientUuid && ' ' !in PrintedKey(r) {
      PiecesComeBack(r);
      PiecesRead(r);
    } else if r.Health? || r.Version? {
    }
  }

  /** Whatever key a health or a version request is given, the other side reads the fixed one. */
  lemma FixedKeys(b: BaseMessage)
    requires ' ' !in b.id && ' ' !in b.clientUuid
    ensures Read(Display(Health(b))) == Parsed(Health(BaseMessage(b.id, "HK", b.clientUuid)))
    ensures Read(Display(Version(b))) == Parsed(Version(BaseMessage(b.id, "DISCARDME", b.clientUuid)))
  {
    var h, v := Health(BaseMessage(b.id, "HK", b.clientUuid)), Version(BaseMessage(b.id, "DISCARDME", b.clientUuid));
    assert Display(h) == Display(Health(b)) && Display(v) == Display(Version(b));
    RequestRoundTrip(h);
    RequestRoundTrip(v);
  }

  // ---- what reading a line gives, for every line ----

  /** The line cut at its spaces spells the request `r`. */
  predicate Spells(q: seq<string>, r: ServerRequest)
  {
    && |q| >= 4 && r.base == BaseMessage(q[1], q[3], q[2])
    && match r
       case Put(_, value) => q[0] == "PUT" && |q| == 5 && q[4] == Encode(value)
       case Get(_) => q[0] == "GET"
       case Delete(_) => q[0] == "DEL"
       case Subscribe(_) => q[0] == "SUB"
       case Unsubscribe(_) => q[0] == "UNSUB"
       case Trace(_) => q[0] == "TRACE"
       case Health(_) => q[0] == "HEALTH"
       case Version(_) => q[0] == "VERSION"
  }

  /** Cutting into at most five pieces, against cutting at every space. */
  lemma FivePieces(line: string)
    ensures var p, q := SplitN(line, 5, ' '), SplitOn(line, ' ');
            && (|q| <= 5 ==> p == q)
            && (|q| > 5 ==> |p| == 5 && p[..4] == q[..4] && ' ' in p[4])
  {
    var q := SplitOn(line, ' ');
    if |q| > 5 {
      var rest := q[4..];
      assert JoinWith(rest, ' ') == rest[0] + [' '] + JoinWith(rest[1..], ' ');
    }
  }

  lemma PiecesExactly(p: seq<string>, r: ServerRequest)
    requires 4 <= |p| <= 5
    ensures ReadPieces(p) == Parsed(r) <==> Spells(p, r)
  {
    if |p| == 5 { ValueExactly(p[4]); }
    hide Encode;
    hide Decode;
  }

  /** A line is read as a request exactly if it spells that request: command word, id, client, key,
      and for a put the encoded value and no more. */
  lemma ReadExactly(line: string, r: ServerRequest)
    ensures Read(line) == Parsed(r) <==> Spells(SplitOn(line, ' '), r)
  {
    var p, q := SplitN(line, 5, ' '), SplitOn(line, ' ');
    FivePieces(line);
    if |p| >= 4 { PiecesExactly(p, r); }
    if |q| > 5 {
      assert p[0] == p[..4][0] && p[1] == p[..4][1] && p[2] == p[..4][2] && p[3] == p[..4][3];
      ValueExactly(p[4]);
    }
    hide Encode;
    hide SplitN;
    hide SplitOn;
    hide ReadPieces;
  }

  /** The text of a value, and the one value it stands for. */
  lemma ValueExactly(text: string)
    ensures ' ' in text ==> text != "" && Decode(text).None?
    ensures text == "" ==> forall v: Bytes :: Encode(v) == text <==> v == []
    ensures forall v: Bytes :: text == Encode(v) <==> Decode(text) == Some(v)
    ensures Encoded(text) <==> Decode(text).Some?
  {
    DecodesExactly(text);
    EncodedText([]);
    forall v: Bytes ensures Encode(v) == "" <==> v == [] { EncodedText(v); }
    if Decode(text).Some? {
      EncodeDecode(text);
      NoSpaceInBase64(Decode(text).value);
    }
  }

  predicate Known(word: string)
  {
    word in {"PUT", "GET", "DEL", "SUB", "UNSUB", "TRACE", "HEALTH", "VERSION"}
  }

  /** Every other line is refused, each for its own reason: the first field that is missing, an
      unknown command, or a put whose value is no base64, which makes the source panic. */
  lemma RefusedExactly(line: string)
    ensures var q := SplitOn(line, ' ');
            && (Read(line) == Failed(Missing("id")) <==> |q| == 1)
            && (Read(line) == Failed(Missing("client-uuid")) <==> |q| == 2)
            && (Read(line) == Failed(Missing("key")) <==> |q| == 3)
            && (Read(line) == Failed(Missing("value")) <==> |q| == 4 && q[0] == "PUT")
            && (Read(line) == Failed(UnknownCommand) <==> |q| >= 4 && !Known(q[0]))
            && (Read(line) == Panicked <==> |q| >= 5 && q[0] == "PUT" && !(|q| == 5 && Encoded(q[4])))
  {
    var p, q := SplitN(line, 5, ' '), SplitOn(line, ' ');
    FivePieces(line);
    if |q| > 5 { assert p[0] == p[..4][0]; }
    if |q| >= 5 && q[0] == "PUT" { PutRefused(line); }
    hide Encode;
    hide Decode;
    hide SplitN;
    hide SplitOn;
  }

  lemma PutRefused(line: string)
    requires var q := SplitOn(line, ' '); |q| >= 5 && q[0] == "PUT"
    ensures var q := SplitOn(line, ' ');
            && (Read(line).Panicked? || Read(line).Parsed?)
            && (Read(line).Panicked? <==> !(|q| == 5 && Encoded(q[4])))
  {
    var p, q := SplitN(line, 5, ' '), SplitOn(line, ' ');
    FivePieces(line);
    if |q| > 5 { assert p[0] == p[..4][0]; }
    ValueExactly(p[4]);
    assert p[4] == "" ==> Decode(p[4]) == Some([]);
    hide Encoded;
    hide Decode;
    hide SplitN;
    hide SplitOn;
  }

  // ---- through the server, which trims the line first ----

  function ReadTrimmed(line: string): Outcome<ServerRequest>
  {
    Read(TrimEnd(line))
  }

  lemma EndsDark(s: string, t: string)
    requires Token(t)
    ensures TrimEnd(s + t) == s + t
  {
    assert !White(t[|t| - 1]);
    assert (s + t)[|s + t| - 1] == t[|t| - 1];
  }

  lemma TrimOneSpace(s: string)
    requires s != "" && !White(s[|s| - 1])
    ensures TrimEnd(s + " ") == s
  {
    assert (s + " ")[..|s|] == s;
  }

  /** A put of no bytes ends in a space, which the server trims away together with the value. */
  lemma TrimmedRoundTrip(r: ServerRequest)
    requires SpaceFree(r) && Token(r.base.id) && Token(r.base.clientUuid) && Token(r.base.key)
    ensures ReadTrimmed(Display(r)) == Parsed(r) <==> (r.Put? ==> r.value != [])
    ensures r.Put? && r.value == [] ==> ReadTrimmed(Display(r)) == Failed(Missing("value"))
    ensures ReadTrimmed(Display(r) + "\n") == ReadTrimmed(Display(r)) == ReadTrimmed(Display(r) + "\r\n")
  {
    LineEnds(Display(r));
    RequestRoundTrip(r);
    EncodedTextIsDark(r);
    var b := r.base;
    if r.Put? {
      var head := "PUT " + b.id + " " + b.clientUuid + " " + b.key;
      if r.value == [] {
        assert Display(r) == head + " ";
        assert head[|head| - 1] == b.key[|b.key| - 1];
        TrimOneSpace(head);
        ShortPut(b);
      } else {
        EndsDark(head + " ", Encode(r.value));
      }
    } else {
      FourWords(r);
      EndsDark(Command(r) + " " + b.id + " " + b.clientUuid + " ", PrintedKey(r));
    }
  }

  lemma EncodedTextIsDark(r: ServerRequest)
    ensures r.Put? && r.value != [] ==> Token(Encode(r.value))
  {
    if r.Put? { EncodedText(r.value); }
  }

  lemma ShortPut(b: BaseMessage)
    requires ' ' !in b.id && ' ' !in b.clientUuid && ' ' !in b.key
    ensures Read("PUT " + b.id + " " + b.clientUuid + " " + b.key) == Failed(Missing("value"))
  {
    var p := ["PUT", b.id, b.clientUuid, b.key];
    FourJoined("PUT", b.id, b.clientUuid, b.key);
    assert "PUT" + " " == "PUT ";
    SplitNJoined(p, 5, ' ');
  }
}
