/** Notification messages on the wire. */
module MessageText {
  import opened Messages
  import opened Base64
  import opened Tokens
  import opened Serializing

  /** `impl Display for Message` */
  function Display(m: Message): string
  {
    match m
    case Hello => "HELLO"
    case Update(key, value) => "UPDATE " + key + " " + Encode(value)
    case Close(key) => "CLOSE " + key
    case NotFound => "NOTFOUND"
  }

  /** What the words of a line say; words that are not needed are ignored. */
  function ReadWords(ws: seq<string>): Outcome<Message>
  {
    if ws == [] then Failed(Missing("type"))
    else if ws[0] == "HELLO" then Parsed(Hello)
    else if ws[0] == "UPDATE" then
      if |ws| < 2 then Failed(Missing("key"))
      else if |ws| < 3 then Failed(Missing("value"))
      else if Decode(ws[2]).Some? then Parsed(Update(ws[1], Decode(ws[2]).value))
      else Panicked
    else if ws[0] == "CLOSE" then
      if |ws| < 2 then Failed(Missing("key")) else Parsed(Close(ws[1]))
    else if ws[0] == "NOTFOUND" then Parsed(NotFound)
    else Failed(UnknownCommand)
  }

  function Read(input: string): Outcome<Message>
  {
    ReadWords(Words(input))
  }

  /** `impl FromStr for Message`: takes the words one after the other. */
  method FromStr(input: string) returns (r: Outcome<Message>)
    ensures r == Read(input)
  {
    var parts := new Parts(Words(input));
    var msgType := parts.Next();
    if msgType.None? { return Failed(Missing("type")); }
    match msgType.value {
      case "HELLO" => r := Parsed(Hello);
      case "UPDATE" =>
        var key := parts.Next();
        if key.None? { return Failed(Missing("key")); }
        var value := parts.Next();
        if value.None? { return Failed(Missing("value")); }
        var data := Decode(value.value);
        if data.None? { return Panicked; }
        r := Parsed(Update(key.value, data.value));
      case "CLOSE" =>
        var key := parts.Next();
        if key.None? { return Failed(Missing("key")); }
        r := Parsed(Close(key.value));
      case "NOTFOUND" => r := Parsed(NotFound);
      case _ => r := Failed(UnknownCommand);
    }
  }

  // ---- when reading undoes printing ----

  /** What survives the wire: keys that are one word, values that are not empty. */
  predicate Sendable(m: Message)
  {
    match m
    case Update(key, value) => Token(key) && value != []
    case Close(key) => Token(key)
    case _ => true
  }

  /** A command word, a space and more words. */
  lemma WordsAfter(command: string, rest: string)
    requires Token(command)
    ensures Words(command + (" " + rest)) == [command] + Words(rest)
  {
    WordFirst(command, " " + rest);
    SkipSpace(rest);
  }

  lemma WordAlone(t: string)
    requires Token(t)
    ensures Words(t) == [t]
  {
    WordFirst(t, "");
    assert t + "" == t && [t] + [] == [t];
  }

  lemma UpdateText(key: string, code: string)
    ensures "UPDATE " + key + " " + code == "UPDATE" + (" " + (key + (" " + code)))
  {
    assert "UPDATE " == "UPDATE" + " ";
  }

  lemma ThreeWords(key: string, code: string)
    requires Token(key) && (code == "" || Token(code))
    ensures Words("UPDATE " + key + " " + code) == ["UPDATE"] + ([key] + if code == "" then [] else [code])
  {
    assert Token("UPDATE");
    UpdateText(key, code);
    hide *;
    WordsAfter("UPDATE", key + (" " + code));
    WordsAfter(key, code);
    if code == "" {
      NoWords();
    } else {
      WordAlone(code);
    }
  }

  lemma NoWords()
    ensures Words("") == []
  {
  }

  lemma UpdateRoundTrip(key: string, value: Bytes)
    requires Token(key)
    ensures var r := Read(Display(Update(key, value)));
            r == if value == [] then Failed(Missing("value")) else Parsed(Update(key, value))
  {
    var code := Encode(value);
    EncodedText(value);
    assert value == [] <==> code == "";
    assert NoWhite(code);
    DecodeEncode(value);
    hide Encode;
    hide Decode;
    hide Words;
    ThreeWords(key, code);
  }

  lemma CloseWords(key: string)
    requires Token(key)
    ensures Words(Display(Close(key))) == ["CLOSE", key]
  {
    assert "CLOSE " + key == "CLOSE" + (" " + key);
    WordsAfter("CLOSE", key);
    WordAlone(key);
  }

  /** Keys that are read are single words. */
  lemma ReadIsWord(input: string)
    ensures Read(input).Parsed? && (Read(input).value.Update? || Read(input).value.Close?) ==>
      Token(Read(input).value.key)
  {
    WordsAreTokens(input);
  }

  /** A printed message is read back as itself exactly if it is sendable; an update without bytes is
      refused for want of a value. */
  lemma MessageRoundTrip(m: Message)
    ensures Read(Display(m)) == Parsed(m) <==> Sendable(m)
    ensures m.Update? && Token(m.key) && m.value == [] ==> Read(Display(m)) == Failed(Missing("value"))
  {
    match m {
      case Hello => WordAlone("HELLO");
      case NotFound => WordAlone("NOTFOUND");
      case Close(key) => CloseExactly(key);
      case Update(key, value) => UpdateExactly(key, value);
    }
    hide Token;
    hide Words;
    hide Encode;
  }

  lemma CloseExactly(key: string)
    ensures Read(Display(Close(key))) == Parsed(Close(key)) <==> Token(key)
  {
    ReadIsWord(Display(Close(key)));
    if Token(key) { CloseWords(key); }
    hide Token;
    hide Words;
  }

  lemma UpdateExactly(key: string, value: Bytes)
    ensures Read(Display(Update(key, value))) == Parsed(Update(key, value)) <==> Token(key) && value != []
    ensures Token(key) && value == [] ==> Read(Display(Update(key, value))) == Failed(Missing("value"))
  {
    ReadIsWord(Display(Update(key, value)));
    if Token(key) { UpdateRoundTrip(key, value); }
    hide Token;
    hide Read;
    hide Display;
  }

  /** The newline that ends a message on the socket makes no difference. */
  lemma NewlineIgnored(line: string)
    ensures Read(line + "\n") == Read(line) == Read(line + "\r\n")
  {
    LineEnds(line);
  }

  /** What a client that gets a sendable message line by line reads. */
  lemma LineRoundTrip(m: Message)
    ensures Read(Display(m) + "\n") == Parsed(m) <==> Sendable(m)
  {
    hide Read;
    hide Display;
    NewlineIgnored(Display(m));
    MessageRoundTrip(m);
  }

  // ---- what reading a line gives, for every line ----

  /** The words of a line spell the message; further words do not matter. */
  predicate Spells(ws: seq<string>, m: Message)
  {
    match m
    case Hello => |ws| >= 1 && ws[0] == "HELLO"
    case Update(key, value) => |ws| >= 3 && ws[0] == "UPDATE" && ws[1] == key && ws[2] == Encode(value)
    case Close(key) => |ws| >= 2 && ws[0] == "CLOSE" && ws[1] == key
    case NotFound => |ws| >= 1 && ws[0] == "NOTFOUND"
  }

  lemma ReadExactly(line: string, m: Message)
    ensures Read(line) == Parsed(m) <==> Spells(Words(line), m)
  {
    var ws := Words(line);
    if |ws| >= 3 { DecodesExactly(ws[2]); }
    hide Words;
    hide Encode;
    hide Decode;
  }

  /** Every other line is refused for its own reason. */
  lemma RefusedExactly(line: string)
    ensures var ws := Words(line);
            && (Read(line) == Failed(Missing("type")) <==> |ws| == 0)
            && (Read(line) == Failed(Missing("key")) <==> |ws| == 1 && ws[0] in {"UPDATE", "CLOSE"})
            && (Read(line) == Failed(Missing("value")) <==> |ws| == 2 && ws[0] == "UPDATE")
            && (Read(line) == Failed(UnknownCommand) <==>
                  |ws| >= 1 && ws[0] !in {"HELLO", "UPDATE", "CLOSE", "NOTFOUND"})
            && (Read(line) == Panicked <==>
                  |ws| >= 3 && ws[0] == "UPDATE" && !Encoded(ws[2]))
  {
    var ws := Words(line);
    if |ws| >= 3 { DecodesExactly(ws[2]); }
    hide Words;
    hide Encoded;
    hide Decode;
  }
}
