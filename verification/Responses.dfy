/** Responses on the wire. */
module Responses {
  import opened Sets
  import opened Text
  import opened Messages
  import opened Base64
  import opened Tokens
  import opened Serializing

  datatype BaseResp = BaseResp(id: string, status: bool)

  /** The source's `T: Marshalable`, as the sum of its three implementations. */
  datatype Payload =
    | Pairs(data: map<string, Bytes>)
    | Names(names: seq<string>)
    | Plain(text: string)

  datatype ServerResponse = Base(base: BaseResp) | Full(base: BaseResp, payload: Payload)

  // ---- printing ----

  function StatusText(status: bool): string
  {
    if status then "OK" else "FAILED"
  }

  function BaseText(b: BaseResp): string
  {
    b.id + " " + StatusText(b.status)
  }

  /** `order` lists the keys of `m`, each once: what iterating over a hash map may come to. */
  ghost predicate Enumerates(order: seq<string>, m: map<string, Bytes>)
  {
    multiset(order) == multiset(m.Keys)
  }

  predicate AllKeys(order: seq<string>, m: map<string, Bytes>)
  {
    forall i :: 0 <= i < |order| ==> order[i] in m
  }

  /** Keys and encoded values, one pair after the other. */
  function Flat(m: map<string, Bytes>, order: seq<string>): seq<string>
    requires AllKeys(order, m)
  {
    if order == [] then [] else
    var n := |order| - 1;
    Flat(m, order[..n]) + [order[n], Encode(m[order[n]])]
  }

  lemma EnumeratesKeys(order: seq<string>, m: map<string, Bytes>)
    requires Enumerates(order, m)
    ensures forall k :: k in order <==> k in m
    ensures |order| == |m|
  {
    forall k ensures k in order <==> k in m { assert k in multiset(order) <==> k in multiset(m.Keys); }
    assert |multiset(order)| == |order| && |multiset(m.Keys)| == |m.Keys| == |m|;
  }

  /** `marshal` of a map: a loop over the hash map in its own order. */
  method MarshalMap(m: map<string, Bytes>) returns (r: string, ghost order: seq<string>)
    ensures Enumerates(order, m) && AllKeys(order, m) && r == Spaced(Flat(m, order))
  {
    r, order := "", [];
    var todo := m.Keys;
    assert m.Keys - todo == {};
    while todo != {}
      invariant todo <= m.Keys && AllKeys(order, m)
      invariant multiset(order) == multiset(m.Keys - todo)
      invariant r == Spaced(Flat(m, order))
    {
      var k :| k in todo;
      TakeOne(m.Keys, todo, k);
      FlatSpaced(m, order, k);
      r, order := r + (" " + k + " " + Encode(m[k])), order + [k];
      todo := todo - {k};
    }
    assert m.Keys - todo == m.Keys;
  }

  lemma FlatSpaced(m: map<string, Bytes>, order: seq<string>, k: string)
    requires AllKeys(order, m) && k in m
    ensures Spaced(Flat(m, order + [k])) == Spaced(Flat(m, order)) + (" " + k + " " + Encode(m[k]))
  {
    assert (order + [k])[..|order|] == order;
    SpacedTwo(Flat(m, order), k, Encode(m[k]));
  }

  /** `marshal` of a list of names. */
  method MarshalNames(names: seq<string>) returns (r: string)
    ensures r == Spaced(names)
  {
    r := "";
    var i := 0;
    while i < |names|
      invariant 0 <= i <= |names| && r == Spaced(names[..i])
    {
      assert names[..i + 1][..i] == names[..i];
      r := r + " " + names[i];
      i := i + 1;
    }
    assert names[..i] == names;
  }

  function MarshalText(p: Payload, order: seq<string>): string
    requires p.Pairs? ==> AllKeys(order, p.data)
  {
    match p
    case Pairs(m) => Spaced(Flat(m, order))
    case Names(names) => Spaced(names)
    case Plain(text) => " " + text
  }

  function KindOf(p: Payload): string
  {
    match p
    case Pairs(_) => "data"
    case Names(_) => "trace"
    case Plain(_) => "version"
  }

  /** `impl Display for ServerResponse`, with the hash map listed in the given order. */
  function Display(r: ServerResponse, order: seq<string>): string
    requires r.Full? && r.payload.Pairs? ==> AllKeys(order, r.payload.data)
  {
    match r
    case Base(b) => "base " + BaseText(b)
    case Full(b, p) => KindOf(p) + " " + (BaseText(b) + MarshalText(p, order))
  }

  // ---- parsing ----

  function ReadStatus(s: string): Outcome<bool>
  {
    if s == "OK" then Parsed(true) else if s == "FAILED" then Parsed(false) else Failed(UnknownCommand)
  }

  function ReadBase(input: string): Outcome<ServerResponse>
  {
    var p := SplitN(input, 3, ' ');
    if |p| < 2 then Failed(Missing("status")) else
    var status := ReadStatus(p[1]);
    if !status.Parsed? then Failed(status.error) else Parsed(Base(BaseResp(p[0], status.value)))
  }

  /** Pairs of a key and its encoded value; a later pair replaces an earlier one of the same key. */
  function ReadPairs(ts: seq<string>): (r: Outcome<map<string, Bytes>>)
    requires |ts| % 2 == 0
    ensures !r.Panicked?
  {
    if ts == [] then Parsed(map[]) else
    var n := |ts| - 2;
    var m, v := ReadPairs(ts[..n]), Decode(ts[n + 1]);
    if m.Failed? then m else if v.None? then Failed(ParseError) else Parsed(m.value[ts[n] := v.value])
  }

  /** `unmarshal` of a map, a loop over chunks of two words. */
  method UnmarshalMap(input: string) returns (r: Outcome<map<string, Bytes>>)
    ensures r == if |Words(input)| % 2 != 0 then Failed(InvalidInput) else ReadPairs(Words(input))
  {
    var parts := Words(input);
    if |parts| % 2 != 0 {
      return Failed(InvalidInput);
    }
    var data := map[];
    var i := 0;
    while i < |parts|
      invariant 0 <= i <= |parts| && i % 2 == 0
      invariant ReadPairs(parts[..i]) == Parsed(data)
    {
      var value := Decode(parts[i + 1]);
      assert parts[..i + 2][..i] == parts[..i];
      if value.None? {
        assert ReadPairs(parts[..i + 2]) == Failed(ParseError);
        FailureStays(parts, i + 2);
        return Failed(ParseError);
      }
      data := data[parts[i] := value.value];
      i := i + 2;
    }
    assert parts[..i] == parts;
    r := Parsed(data);
  }

  lemma {:induction false} FailureStays(ts: seq<string>, n: nat)
    requires |ts| % 2 == 0 && n <= |ts| && n % 2 == 0 && ReadPairs(ts[..n]) == Failed(ParseError)
    ensures ReadPairs(ts) == Failed(ParseError)
  {
    if n == |ts| {
      assert ts[..n] == ts;
    } else {
      var m := |ts| - 2;
      assert ts[..m][..n] == ts[..n];
      FailureStays(ts[..m], n);
    }
  }

  function Unmarshal(kind: string, input: string): Outcome<Payload>
  {
    if kind == "data" then
      if |Words(input)| % 2 != 0 then Failed(InvalidInput) else
      var m := ReadPairs(Words(input));
      if m.Failed? then Failed(m.error) else Parsed(Pairs(m.value))
    else if kind == "trace" then Parsed(Names(Words(input)))
    else Parsed(Plain(input))
  }

  /** `impl FromStr for DataResp<T>` on the words of its input. */
  function ReadFull(kind: string, ws: seq<string>): Outcome<ServerResponse>
  {
    if |ws| < 1 then Failed(Missing("id"))
    else if |ws| < 2 then Failed(Missing("status"))
    else
      var status := ReadStatus(ws[1]);
      if !status.Parsed? then Failed(status.error) else
      var payload := Unmarshal(kind, JoinWith(ws[2..], ' '));
      if payload.Parsed? then Parsed(Full(BaseResp(ws[0], status.value), payload.value))
      else if payload.Failed? then Failed(payload.error) else Panicked
  }

  method FullFromStr(kind: string, input: string) returns (r: Outcome<ServerResponse>)
    ensures r == ReadFull(kind, Words(input))
  {
    var parts := new Parts(Words(input));
    var id := parts.Next();
    if id.None? { return Failed(Missing("id")); }
    var statusText := parts.Next();
    if statusText.None? { return Failed(Missing("status")); }
    var status := true;
    match statusText.value {
      case "OK" => status := true;
      case "FAILED" => status := false;
      case _ => return Failed(UnknownCommand);
    }
    var payload := Unmarshal(kind, JoinWith(parts.rest, ' '));
    match payload {
      case Parsed(p) => r := Parsed(Full(BaseResp(id.value, status), p));
      case Failed(e) => r := Failed(e);
      case Panicked => r := Panicked;
    }
  }

  /** `impl FromStr for ServerResponse` */
  function Read(input: string): Outcome<ServerResponse>
  {
    var n := WordLength(input);
    if n == |input| then Failed(Missing("type")) else
    var first, tail := input[..n], TrimStart(input[n..]);
    if first == "base" then ReadBase(tail)
    else if first == "data" || first == "trace" || first == "version" then ReadFull(first, Words(tail))
    else Failed(Missing("type"))
  }

  // ---- when reading undoes printing ----

  /** What survives the wire. */
  predicate Sendable(r: ServerResponse)
  {
    match r
    case Base(b) => b.id != "" && ' ' !in b.id && !White(b.id[0])
    case Full(b, Pairs(m)) => Token(b.id) && forall k :: k in m ==> Token(k) && m[k] != []
    case Full(b, Names(names)) => Token(b.id) && AllTokens(names)
    case Full(b, Plain(text)) => Token(b.id) && NormalSpacing(text)
  }

  lemma FirstWord(kind: string, rest: string)
    requires kind in {"base", "data", "trace", "version"}
    ensures var input := kind + " " + rest;
            WordLength(input) == |kind| && input[..|kind|] == kind && input[|kind|..] == " " + rest
            && |kind| < |input|
  {
    hide WordLength;
    assert kind + " " + rest == kind + (" " + rest);
    WordLengthOf(kind, " " + rest);
  }

  lemma BaseRoundTrip(b: BaseResp)
    ensures Read("base " + BaseText(b)) == Parsed(Base(b)) <==> Sendable(Base(b))
  {
    hide Words;
    FirstWord("base", BaseText(b));
    assert "base" + " " == "base ";
    var tail := TrimStart(" " + BaseText(b));
    assert (" " + BaseText(b))[1..] == BaseText(b);
    TrimStartWords(BaseText(b));
    if b.id != "" && !White(b.id[0]) {
      assert tail == b.id + " " + StatusText(b.status);
      if ' ' !in b.id {
        var p := [b.id, StatusText(b.status)];
        assert p[1..] == [StatusText(b.status)];
        assert JoinWith(p, ' ') == tail;
        SplitNJoined(p, 3, ' ');
      }
    }
    ReadBaseShape(tail);
  }

  /** The id that is read starts the input and has no space. */
  lemma ReadBaseShape(tail: string)
    requires tail != "" ==> !White(tail[0])
    ensures ReadBase(tail).Parsed? ==> Sendable(ReadBase(tail).value)
  {
    if ReadBase(tail).Parsed? {
      SplitNFree(tail, 3, ' ', 0);
      if tail != "" {
        assert SplitOn(tail, ' ')[0][0] == tail[0];
      }
    }
  }

  /** Id and status are the first two words. */
  lemma TwoWords(b: BaseResp, rest: string)
    requires Token(b.id) && (rest != "" ==> White(rest[0]))
    ensures Words(" " + (BaseText(b) + rest)) == [b.id, StatusText(b.status)] + Words(rest)
  {
    var st := StatusText(b.status);
    assert Token(st) && BaseText(b) == b.id + " " + st;
    hide *;
    TwoFirst(b.id, st, rest);
    ConsTwice(b.id, st, Words(rest));
  }

  lemma ConsTwice(a: string, b: string, ws: seq<string>)
    ensures [a] + ([b] + ws) == [a, b] + ws
  {
  }

  /** What is read of a data, trace or version response is sendable, but for empty values. */
  lemma ReadFullShape(kind: string, ws: seq<string>)
    requires AllTokens(ws)
    ensures ReadFull(kind, ws).Parsed? ==>
            var r := ReadFull(kind, ws).value;
            && r.Full? && Token(r.base.id)
            && (r.payload.Pairs? ==> (forall k :: k in r.payload.data ==> Token(k)) && 2 * |r.payload.data| <= |ws| - 2)
            && (r.payload.Names? ==> r.payload.names == ws[2..])
            && (r.payload.Plain? ==> r.payload.text == JoinWith(ws[2..], ' '))
  {
    hide ReadPairs;
    hide Token;
    if |ws| >= 2 {
      WordsJoined(ws[2..]);
      if kind == "data" && |ws| % 2 == 0 { ReadPairsShape(ws[2..]); }
    }
  }

  lemma {:induction false} ReadPairsShape(ts: seq<string>)
    requires |ts| % 2 == 0 && AllTokens(ts)
    ensures ReadPairs(ts).Parsed? ==>
      (forall k :: k in ReadPairs(ts).value ==> Token(k)) && 2 * |ReadPairs(ts).value| <= |ts|
  {
    if ts != [] {
      ReadPairsShape(ts[..|ts| - 2]);
      if ReadPairs(ts).Parsed? {
        var m, k := ReadPairs(ts[..|ts| - 2]).value, ts[|ts| - 2];
        assert ReadPairs(ts).value.Keys == m.Keys + {k};
      }
    }
  }

  /** `m` at the keys listed. */
  ghost function Only(m: map<string, Bytes>, order: seq<string>): map<string, Bytes>
  {
    map k | k in m && k in order :: m[k]
  }

  /** Flattened pairs read back as the map restricted to the keys listed. */
  lemma {:induction false} FlatReadsBack(m: map<string, Bytes>, order: seq<string>)
    requires AllKeys(order, m)
    ensures |Flat(m, order)| == 2 * |order|
    ensures ReadPairs(Flat(m, order)) == Parsed(Only(m, order))
  {
    if order == [] {
      assert Only(m, []) == map[];
    } else {
      var n := |order| - 1;
      FlatReadsBack(m, order[..n]);
      OneMoreRead(m, order[..n], order[n]);
      assert order == order[..n] + [order[n]];
    }
  }

  lemma OneMoreRead(m: map<string, Bytes>, order: seq<string>, k: string)
    requires AllKeys(order, m) && k in m
    requires |Flat(m, order)| % 2 == 0 && ReadPairs(Flat(m, order)) == Parsed(Only(m, order))
    ensures |Flat(m, order + [k])| == |Flat(m, order)| + 2
    ensures ReadPairs(Flat(m, order + [k])) == Parsed(Only(m, order + [k]))
  {
    assert (order + [k])[..|order|] == order;
    Restricted(m, order, k);
    PairRead(Flat(m, order), k, m[k]);
    hide ReadPairs;
    hide Only;
    hide Encode;
  }

  lemma PairRead(f: seq<string>, k: string, v: Bytes)
    requires |f| % 2 == 0 && ReadPairs(f).Parsed?
    ensures ReadPairs(f + [k, Encode(v)]) == Parsed(ReadPairs(f).value[k := v])
  {
    DecodeEncode(v);
    assert (f + [k, Encode(v)])[..|f|] == f;
  }

  lemma Restricted(m: map<string, Bytes>, order: seq<string>, k: string)
    requires k in m
    ensures Only(m, order + [k]) == Only(m, order)[k := m[k]]
  {
    forall x ensures x in order + [k] <==> x in order || x == k { }
  }

  /** Pieces of a flattened map are keys or encoded values. */
  lemma {:induction false} FlatPieces(m: map<string, Bytes>, order: seq<string>)
    requires AllKeys(order, m) && AllTokens(order)
    ensures forall i :: 0 <= i < |Flat(m, order)| ==> NoWhite(Flat(m, order)[i])
    ensures "" in Flat(m, order) <==> exists i :: 0 <= i < |order| && m[order[i]] == []
  {
    hide Encode;
    if order != [] {
      var n := |order| - 1;
      FlatPieces(m, order[..n]);
      EncodedText(m[order[n]]);
      var f, g := Flat(m, order[..n]), [order[n], Encode(m[order[n]])];
      assert Flat(m, order) == f + g;
      assert "" in f + g <==> "" in f || "" in g;
      assert "" in g <==> m[order[n]] == [];
      forall i | 0 <= i < n ensures order[..n][i] == order[i] { }
    }
  }

  /** The words of a printed data response are the flattened pairs, less the empty values. */
  lemma FlatWords(b: BaseResp, m: map<string, Bytes>, order: seq<string>)
    requires Token(b.id) && Enumerates(order, m) && forall k :: k in m ==> Token(k)
    ensures AllKeys(order, m)
    ensures var f := Flat(m, order);
            && Words(" " + (BaseText(b) + Spaced(f))) == [b.id, StatusText(b.status)] + Dense(f)
            && |f| == 2 * |m| && ReadPairs(f) == Parsed(m)
            && (Dense(f) == f || |Dense(f)| < |f|)
            && (Dense(f) == f <==> forall k :: k in m ==> m[k] != [])
  {
    EnumeratesKeys(order, m);
    var f := Flat(m, order);
    FlatPieces(m, order);
    FlatReadsBack(m, order);
    assert Only(m, order) == m;
    WordsSpaced(f);
    DenseTokens(f);
    TwoWords(b, Spaced(f));
    if "" !in f {
      forall k | k in m ensures m[k] != [] { var i :| 0 <= i < |order| && order[i] == k; }
    }
  }

  lemma DataRoundTrip(b: BaseResp, m: map<string, Bytes>, order: seq<string>)
    requires Enumerates(order, m) && AllKeys(order, m)
    ensures ReadFull("data", Words(" " + (BaseText(b) + Spaced(Flat(m, order))))) == Parsed(Full(b, Pairs(m))) <==>
            Sendable(Full(b, Pairs(m)))
  {
    hide Words;
    hide Dense;
    hide Flat;
    hide Spaced;
    var text := " " + (BaseText(b) + Spaced(Flat(m, order)));
    WordsAreTokens(text);
    ReadFullShape("data", Words(text));
    if Token(b.id) && forall k :: k in m ==> Token(k) {
      FlatWords(b, m, order);
      ReadsDense(b, m, Flat(m, order), Words(text));
    }
  }

  /** Only with no word missing do the words read as the whole map. */
  lemma ReadsDense(b: BaseResp, m: map<string, Bytes>, f: seq<string>, ws: seq<string>)
    requires AllTokens(ws) && ws == [b.id, StatusText(b.status)] + Dense(f)
    requires |f| == 2 * |m| && ReadPairs(f) == Parsed(m)
    requires Dense(f) == f || |Dense(f)| < |f|
    ensures ReadFull("data", ws) == Parsed(Full(b, Pairs(m))) <==> Dense(f) == f
  {
    hide Dense;
    hide ReadPairs;
    hide Token;
    assert ws[2..] == Dense(f);
    ReadFullShape("data", ws);
    WordsJoined(ws[2..]);
  }

  lemma NamesRoundTrip(b: BaseResp, names: seq<string>)
    ensures ReadFull("trace", Words(" " + (BaseText(b) + Spaced(names)))) == Parsed(Full(b, Names(names))) <==>
            Sendable(Full(b, Names(names)))
  {
    hide Spaced;
    hide Words;
    var ws := Words(" " + (BaseText(b) + Spaced(names)));
    WordsAreTokens(" " + (BaseText(b) + Spaced(names)));
    if ReadFull("trace", ws) == Parsed(Full(b, Names(names))) {
      ReadFullShape("trace", ws);
      forall i | 0 <= i < |names| ensures Token(names[i]) { assert names[i] == ws[i + 2]; }
    }
    if Token(b.id) && AllTokens(names) {
      WordsSpaced(names);
      DenseTokens(names);
      TwoWords(b, Spaced(names));
      assert ws[2..] == names;
      WordsJoined(names);
    }
  }

  lemma PlainRoundTrip(b: BaseResp, text: string)
    ensures ReadFull("version", Words(" " + (BaseText(b) + (" " + text)))) == Parsed(Full(b, Plain(text))) <==>
            Sendable(Full(b, Plain(text)))
  {
    var ws := Words(" " + (BaseText(b) + (" " + text)));
    WordsAreTokens(" " + (BaseText(b) + (" " + text)));
    if ReadFull("version", ws) == Parsed(Full(b, Plain(text))) { ReadFullShape("version", ws); }
    if Token(b.id) {
      TwoWords(b, " " + text);
      SkipSpace(text);
      assert ws[2..] == Words(text);
      RejoinedExactly(text);
    }
  }

  /** A data, trace or version response is read by its words. */
  lemma ReadsAs(b: BaseResp, p: Payload, order: seq<string>)
    requires p.Pairs? ==> AllKeys(order, p.data)
    ensures Read(Display(Full(b, p), order)) == ReadFull(KindOf(p), Words(" " + (BaseText(b) + MarshalText(p, order))))
  {
    var rest := BaseText(b) + MarshalText(p, order);
    FirstWord(KindOf(p), rest);
    TrimStartWords(" " + rest);
  }

  /** A printed response is read back as itself, whichever order the hash map listed its pairs in,
      exactly if it is sendable: words for ids, keys and names, no empty value, text normally spaced. */
  lemma ResponseRoundTrip(r: ServerResponse, order: seq<string>)
    requires r.Full? && r.payload.Pairs? ==>
      Enumerates(order, r.payload.data) && AllKeys(order, r.payload.data)
    ensures Read(Display(r, order)) == Parsed(r) <==> Sendable(r)
  {
    match r {
      case Base(b) => BaseRoundTrip(b);
      case Full(b, p) =>
        ReadsAs(b, p, order);
        match p {
          case Pairs(m) => DataRoundTrip(b, m, order);
          case Names(names) => NamesRoundTrip(b, names);
          case Plain(text) => PlainRoundTrip(b, text);
        }
    }
  }

  /** Empty values are not merely refused: two of them can pass for one pair, and a well-formed but
      wrong answer is read. */
  lemma EmptyValuesMisread(id: string)
    requires Token(id)
    ensures var m, b := map["k" := [], "abcd" := []], BaseResp(id, true);
            && Enumerates(["k", "abcd"], m)
            && Read(Display(Full(b, Pairs(m)), ["k", "abcd"])) == Parsed(Full(b, Pairs(map["k" := [105, 183, 29]])))
  {
    var m, b, order := map["k" := [], "abcd" := []], BaseResp(id, true), ["k", "abcd"];
    assert m.Keys == {"k", "abcd"} && multiset(order) == multiset(m.Keys);
    hide *;
    FlatWords(b, m, order);
    MisreadFlat();
    ReadsAs(b, Pairs(m), order);
    MisreadFull(b);
  }

  lemma MisreadFlat()
    ensures Dense(Flat(map["k" := [], "abcd" := []], ["k", "abcd"])) == ["k", "abcd"]
  {
    var m, order := map["k" := [], "abcd" := []], ["k", "abcd"];
    assert order[..1] == ["k"] && ["k"][..0] == [];
    assert Flat(m, order) == ["k", "", "abcd", ""];
    var d := ["abcd", ""];
    assert ["k", "", "abcd", ""][1..] == ["", "abcd", ""] && ["", "abcd", ""][1..] == d;
    assert d[1..] == [""] && [""][1..] == [];
  }

  lemma MisreadFull(b: BaseResp)
    ensures ReadFull("data", [b.id, StatusText(b.status)] + ["k", "abcd"]) ==
            Parsed(Full(b, Pairs(map["k" := [105, 183, 29]])))
  {
    assert ([b.id, StatusText(b.status)] + ["k", "abcd"])[2..] == ["k", "abcd"];
    WordsJoined(["k", "abcd"]);
    MisreadPair();
  }

  lemma MisreadPair()
    ensures ReadPairs(["k", "abcd"]) == Parsed(map["k" := [105, 183, 29]])
  {
    var v: Bytes := [105, 183, 29];
    assert v[3..] == [] && Encode(v) == "abcd";
    PairRead([], "k", v);
    assert [] + ["k", Encode(v)] == ["k", "abcd"];
    assert map[]["k" := v] == map["k" := v];
  }

  // ---- what reading a line gives, for every line ----

  predicate SpellsStatus(word: string, status: bool)
  {
    word == if status then "OK" else "FAILED"
  }

  /** The line has a first word of a known kind, and goes on after it. */
  predicate HasKind(line: string, kind: string)
  {
    var n := WordLength(line);
    n < |line| && line[..n] == kind && kind in {"base", "data", "trace", "version"}
  }

  /** What follows the word `base`, cut at its spaces. */
  function BasePieces(line: string): seq<string>
    requires |line| >= 4
  {
    SplitOn(TrimStart(line[4..]), ' ')
  }

  /** Keys and encoded values in turn; the last pair of a key counts. */
  ghost predicate SpellsPairs(ts: seq<string>, m: map<string, Bytes>)
  {
    && |ts| % 2 == 0
    && (forall i :: 0 <= i < |ts| / 2 ==> KeyAt(ts, i) in m && Decode(ts[2 * i + 1]).Some?)
    && (forall k :: k in m ==> exists i :: 0 <= i < |ts| / 2 && KeyAt(ts, i) == k)
    && (forall i :: 0 <= i < |ts| / 2 && IsLast(ts, i) ==> ts[2 * i + 1] == Encode(m[KeyAt(ts, i)]))
  }

  function KeyAt(ts: seq<string>, i: nat): string
    requires i < |ts| / 2
  {
    ts[2 * i]
  }

  predicate IsLast(ts: seq<string>, i: nat)
    requires i < |ts| / 2
  {
    forall j :: i < j < |ts| / 2 ==> KeyAt(ts, j) != KeyAt(ts, i)
  }

  ghost predicate SpellsPayload(kind: string, ts: seq<string>, p: Payload)
  {
    match p
    case Pairs(m) => kind == "data" && SpellsPairs(ts, m)
    case Names(names) => kind == "trace" && names == ts
    case Plain(text) => kind == "version" && text == JoinWith(ts, ' ')
  }

  ghost predicate Spells(line: string, r: ServerResponse)
  {
    var ws := Words(line);
    match r
    case Base(b) =>
      && HasKind(line, "base") && |BasePieces(line)| >= 2
      && BasePieces(line)[0] == b.id && SpellsStatus(BasePieces(line)[1], b.status)
    case Full(b, p) =>
      && |ws| >= 3 && HasKind(line, ws[0]) && ws[1] == b.id && SpellsStatus(ws[2], b.status)
      && SpellsPayload(ws[0], ws[3..], p)
  }

  /** The pairs read are the pairs spelled. */
  lemma {:induction false} ReadPairsSays(ts: seq<string>)
    requires |ts| % 2 == 0
    ensures ReadPairs(ts).Parsed? <==> forall i :: 0 <= i < |ts| / 2 ==> Decode(ts[2 * i + 1]).Some?
    ensures ReadPairs(ts).Parsed? ==> SpellsPairs(ts, ReadPairs(ts).value)
    ensures ReadPairs(ts).Failed? ==> ReadPairs(ts).error == ParseError
  {
    if ts != [] {
      var n := |ts| - 2;
      var init := ts[..n];
      ReadPairsSays(init);
      forall i | 0 <= i < n / 2 ensures KeyAt(init, i) == KeyAt(ts, i) && init[2 * i + 1] == ts[2 * i + 1] { }
      assert KeyAt(ts, n / 2) == ts[n];
      if ReadPairs(ts).Parsed? { LastPairCounts(ts); }
    }
  }

  /** The pairs before the last one. */
  lemma InitPairs(ts: seq<string>, i: nat)
    requires |ts| % 2 == 0 && i < |ts| / 2 - 1
    ensures var init := ts[..|ts| - 2];
            && KeyAt(init, i) == KeyAt(ts, i) && init[2 * i + 1] == ts[2 * i + 1]
            && (IsLast(ts, i) <==> IsLast(init, i) && KeyAt(ts, i) != ts[|ts| - 2])
  {
    var init := ts[..|ts| - 2];
    assert KeyAt(ts, |ts| / 2 - 1) == ts[|ts| - 2];
    forall j | i < j < |ts| / 2 - 1 ensures KeyAt(init, j) == KeyAt(ts, j) { }
  }

  lemma LastPairCounts(ts: seq<string>)
    requires |ts| % 2 == 0 && |ts| >= 2 && ReadPairs(ts).Parsed?
    requires SpellsPairs(ts[..|ts| - 2], ReadPairs(ts[..|ts| - 2]).value)
    ensures SpellsPairs(ts, ReadPairs(ts).value)
  {
    var n := |ts| - 2;
    var m := ReadPairs(ts[..n]).value;
    DecodesExactly(ts[n + 1]);
    OneMorePair(ts, m, Decode(ts[n + 1]).value);
  }

  lemma OneMorePair(ts: seq<string>, m: map<string, Bytes>, v: Bytes)
    requires |ts| % 2 == 0 && |ts| >= 2 && SpellsPairs(ts[..|ts| - 2], m)
    requires Decode(ts[|ts| - 1]).Some? && Encode(v) == ts[|ts| - 1]
    ensures SpellsPairs(ts, m[ts[|ts| - 2] := v])
  {
    hide Decode;
    hide Encode;
    hide IsLast;
    var n := |ts| - 2;
    var init, t := ts[..n], m[ts[n] := v];
    assert KeyAt(ts, n / 2) == ts[n] && 2 * (n / 2) + 1 == |ts| - 1;
    forall i | 0 <= i < |ts| / 2
      ensures KeyAt(ts, i) in t && Decode(ts[2 * i + 1]).Some?
      ensures IsLast(ts, i) ==> ts[2 * i + 1] == Encode(t[KeyAt(ts, i)])
    {
      if i < n / 2 { InitPairs(ts, i); }
    }
    forall k | k in t ensures exists i :: 0 <= i < |ts| / 2 && KeyAt(ts, i) == k {
      if k != ts[n] {
        var i :| 0 <= i < n / 2 && KeyAt(init, i) == k;
        InitPairs(ts, i);
        assert KeyAt(ts, i) == k;
      }
    }
  }

  /** Two answers that the same pairs spell are the same. */
  lemma SpelledOnce(ts: seq<string>, m: map<string, Bytes>, n: map<string, Bytes>)
    requires SpellsPairs(ts, m) && SpellsPairs(ts, n)
    ensures m == n
  {
    forall k | k in m || k in n ensures k in m && k in n && m[k] == n[k] { ValueOnce(ts, m, n, k); }
    hide SpellsPairs;
  }

  lemma ValueOnce(ts: seq<string>, m: map<string, Bytes>, n: map<string, Bytes>, k: string)
    requires SpellsPairs(ts, m) && SpellsPairs(ts, n) && (k in m || k in n)
    ensures k in m && k in n && m[k] == n[k]
  {
    hide Encode;
    hide Decode;
    hide IsLast;
    var i :| 0 <= i < |ts| / 2 && KeyAt(ts, i) == k;
    var j := LastPair(ts, i);
    DecodeEncode(m[k]);
    DecodeEncode(n[k]);
  }

  lemma LastPair(ts: seq<string>, i: nat) returns (j: nat)
    requires i < |ts| / 2
    ensures i <= j < |ts| / 2 && KeyAt(ts, j) == KeyAt(ts, i) && IsLast(ts, j)
    decreases |ts| - i
  {
    j := i;
    if !IsLast(ts, i) {
      var k :| i < k < |ts| / 2 && KeyAt(ts, k) == KeyAt(ts, i);
      j := LastPair(ts, k);
    }
  }

  lemma ReadPairsExactly(ts: seq<string>, m: map<string, Bytes>)
    requires |ts| % 2 == 0
    ensures ReadPairs(ts) == Parsed(m) <==> SpellsPairs(ts, m)
  {
    ReadPairsSays(ts);
    if SpellsPairs(ts, m) {
      forall i | 0 <= i < |ts| / 2 ensures Decode(ts[2 * i + 1]).Some? { assert KeyAt(ts, i) in m; }
      SpelledOnce(ts, m, ReadPairs(ts).value);
    }
  }

  /** The words after the kind are the words of the rest. */
  lemma KindThenWords(line: string)
    requires HasKind(line, line[..WordLength(line)])
    ensures var n := WordLength(line);
            Words(line) == [line[..n]] + Words(TrimStart(line[n..]))
    ensures TrimStart(line[WordLength(line)..]) != "" ==> !White(TrimStart(line[WordLength(line)..])[0])
  {
    TrimStartWords(line[WordLength(line)..]);
    assert WordLength(line) > 0;
  }

  /** One of the three readings with a payload. */
  lemma FullExactly(kind: string, ws: seq<string>, r: ServerResponse)
    requires kind in {"data", "trace", "version"} && AllTokens(ws)
    ensures ReadFull(kind, ws) == Parsed(r) <==>
      && r.Full? && |ws| >= 2 && ws[0] == r.base.id && SpellsStatus(ws[1], r.base.status)
      && SpellsPayload(kind, ws[2..], r.payload)
  {
    if |ws| >= 2 && r.Full? { UnmarshalExactly(kind, ws[2..], r.payload); }
    hide SpellsPayload;
    hide Unmarshal;
    hide JoinWith;
    hide Token;
  }

  lemma UnmarshalExactly(kind: string, ts: seq<string>, p: Payload)
    requires kind in {"data", "trace", "version"} && AllTokens(ts)
    ensures Unmarshal(kind, JoinWith(ts, ' ')) == Parsed(p) <==> SpellsPayload(kind, ts, p)
  {
    WordsJoined(ts);
    if |ts| % 2 == 0 && p.Pairs? { ReadPairsExactly(ts, p.data); }
    assert p.Pairs? && SpellsPairs(ts, p.data) ==> |ts| % 2 == 0;
    hide SpellsPairs;
    hide ReadPairs;
    hide Words;
    hide JoinWith;
  }

  lemma BaseExactly(tail: string, r: ServerResponse)
    ensures var q := SplitOn(tail, ' ');
            ReadBase(tail) == Parsed(r) <==>
              r.Base? && |q| >= 2 && q[0] == r.base.id && SpellsStatus(q[1], r.base.status)
  {
    ThreePieces(tail);
    hide SplitN;
    hide SplitOn;
  }

  lemma ThreePieces(s: string)
    ensures var p, q := SplitN(s, 3, ' '), SplitOn(s, ' ');
            (|p| >= 2 <==> |q| >= 2) && p[0] == q[0] && (|p| >= 2 ==> p[1] == q[1])
  {
  }

  /** A line is read as a response exactly if it spells that response. */
  lemma ReadExactly(line: string, r: ServerResponse)
    ensures Read(line) == Parsed(r) <==> Spells(line, r)
  {
    var n := WordLength(line);
    var kind, tail := line[..n], TrimStart(line[n..]);
    if n < |line| && kind in {"base", "data", "trace", "version"} {
      KindThenWords(line);
      WordsAreTokens(tail);
      BaseExactly(tail, r);
      var ws := Words(tail);
      if kind != "base" { FullExactly(kind, ws, r); }
      assert |ws| >= 2 ==> Words(line)[3..] == ws[2..];
    }
    hide ReadBase;
    hide ReadFull;
    hide SplitOn;
    hide Words;
    hide TrimStart;
    hide SpellsPairs;
  }

  /** Every other line is refused for its own reason: no kind, or an unknown one, */
  lemma NoKindRefused(line: string)
    ensures Read(line) == Failed(Missing("type")) <==> !HasKind(line, line[..WordLength(line)])
  {
    var n := WordLength(line);
    if HasKind(line, line[..n]) {
      var tail := TrimStart(line[n..]);
      WordsAreTokens(tail);
      ThreePieces(tail);
      if line[..n] != "base" { FullRefused(line[..n], Words(tail)); }
    }
    hide ReadFull;
    hide SplitOn;
    hide SplitN;
    hide Words;
    hide TrimStart;
  }

  /** a base response without a status, or with an unknown one, */
  lemma BaseRefused(line: string)
    requires HasKind(line, "base")
    ensures var q := BasePieces(line);
            && (Read(line) == Failed(Missing("status")) <==> |q| == 1)
            && (Read(line) == Failed(UnknownCommand) <==> |q| >= 2 && q[1] !in {"OK", "FAILED"})
  {
    ThreePieces(TrimStart(line[4..]));
    hide SplitOn;
    hide SplitN;
    hide TrimStart;
  }

  /** Some value is no base64. */
  ghost predicate BadPair(ts: seq<string>)
  {
    exists i :: 0 <= i < |ts| / 2 && !Encoded(ts[2 * i + 1])
  }

  /** What becomes of the words `ws` after a kind that do not spell a response. */
  ghost predicate RefusedAs(o: Outcome<ServerResponse>, kind: string, ws: seq<string>)
  {
    var known := |ws| >= 2 && (ws[1] == "OK" || ws[1] == "FAILED");
    && (o == Failed(Missing("id")) <==> |ws| == 0)
    && (o == Failed(Missing("status")) <==> |ws| == 1)
    && (o == Failed(UnknownCommand) <==> |ws| >= 2 && !known)
    && (o == Failed(InvalidInput) <==> known && kind == "data" && |ws| % 2 == 1)
    && (o == Failed(ParseError) <==> known && kind == "data" && |ws| % 2 == 0 && BadPair(ws[2..]))
    && !o.Panicked? && o != Failed(Missing("type"))
  }

  /** another one without an id or a status, with an unknown status, or with data that are no pairs
      or no base64. */
  lemma RefusedExactly(line: string, kind: string)
    requires HasKind(line, kind) && kind != "base"
    ensures |Words(line)| >= 1 && RefusedAs(Read(line), kind, Words(line)[1..])
  {
    var ws := KindWords(line, kind);
    hide *;
    FullRefused(kind, ws);
  }

  /** What follows the kind, as words. */
  lemma KindWords(line: string, kind: string) returns (ws: seq<string>)
    requires HasKind(line, kind) && kind != "base"
    ensures kind in {"data", "trace", "version"} && AllTokens(ws) && Read(line) == ReadFull(kind, ws)
    ensures |Words(line)| >= 1 && Words(line)[1..] == ws
  {
    var tail := TrimStart(line[WordLength(line)..]);
    KindThenWords(line);
    WordsAreTokens(tail);
    ws := Words(tail);
    hide ReadFull;
    hide Words;
    hide TrimStart;
  }

  lemma FullRefused(kind: string, ws: seq<string>)
    requires kind in {"data", "trace", "version"} && AllTokens(ws)
    ensures RefusedAs(ReadFull(kind, ws), kind, ws)
  {
    if |ws| >= 2 { UnmarshalRefused(kind, ws[2..]); }
    hide Unmarshal;
    hide JoinWith;
    hide Token;
    hide BadPair;
  }

  lemma UnmarshalRefused(kind: string, ts: seq<string>)
    requires kind in {"data", "trace", "version"} && AllTokens(ts)
    ensures var u := Unmarshal(kind, JoinWith(ts, ' '));
            if kind == "data" && |ts| % 2 == 1 then u == Failed(InvalidInput)
            else if kind == "data" && BadPair(ts) then u == Failed(ParseError)
            else u.Parsed?
  {
    WordsJoined(ts);
    if |ts| % 2 == 0 {
      ReadPairsSays(ts);
      forall i | 0 <= i < |ts| / 2 ensures Encoded(ts[2 * i + 1]) <==> Decode(ts[2 * i + 1]).Some? {
        DecodesExactly(ts[2 * i + 1]);
      }
    }
    hide SpellsPairs;
    hide ReadPairs;
    hide Words;
    hide JoinWith;
    hide Encoded;
    hide Decode;
  }

  // ---- through the client, which trims the line first ----

  lemma OneWordLine(t: string)
    ensures t != "" && WordLength(t) == |t| ==> |Words(t)| == 1
  {
    if t != "" && WordLength(t) == |t| {
      assert t[|t|..] == "" && Words("") == [];
    }
  }

  lemma TrimmedKind(line: string, kind: string)
    requires HasKind(line, kind) && |Words(line)| >= 2
    ensures HasKind(TrimEnd(line), kind)
  {
    var t, n := TrimEnd(line), WordLength(line);
    WordsTrimEnd(line);
    KindThenWords(line);
    assert t != "" by { assert Words("") == []; }
    assert t[0] == line[0] && !White(t[0]) by { assert line[..n][0] == line[0]; }
    var k := WordLength(t);
    assert Words(t) == [t[..k]] + Words(t[k..]);
    OneWordLine(t);
    assert t[..k] == Words(t)[0] == line[..n];
  }

  lemma TrimmedSpells(line: string, r: ServerResponse)
    requires Spells(line, r) && r.Full?
    ensures Spells(TrimEnd(line), r)
  {
    WordsTrimEnd(line);
    TrimmedKind(line, KindOf(r.payload));
  }

  lemma EndsInStatus(b: BaseResp)
    ensures TrimEnd("base " + BaseText(b)) == "base " + BaseText(b)
  {
    var s := "base " + BaseText(b);
    assert s[|s| - 1] == StatusText(b.status)[|StatusText(b.status)| - 1];
  }

  /** A sendable response survives the client's trim, with or without a line's end. */
  lemma TrimmedRoundTrip(r: ServerResponse, order: seq<string>)
    requires Sendable(r)
    requires r.Full? && r.payload.Pairs? ==>
      Enumerates(order, r.payload.data) && AllKeys(order, r.payload.data)
    ensures Read(TrimEnd(Display(r, order))) == Parsed(r)
    ensures Read(TrimEnd(Display(r, order) + "\n")) == Parsed(r)
  {
    var line := Display(r, order);
    ResponseRoundTrip(r, order);
    LineEnds(line);
    match r {
      case Base(b) => EndsInStatus(b);
      case Full(_, _) =>
        ReadExactly(line, r);
        TrimmedSpells(line, r);
        ReadExactly(TrimEnd(line), r);
    }
  }
}
