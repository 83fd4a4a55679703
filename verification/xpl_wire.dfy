/** The xPL wire text of a message: `to_string` in
    xpl_application_service.cpp, and the round trip through the receive
    path (tokenize on '\n', feed a fresh datagram parser). */
module XplWire {
  import opened Optional
  import opened Text
  import opened KeyOrder
  import opened XplMessage
  import opened DatagramParser

  lemma Assoc(a: string, b: string, c: string)
    ensures a + b + c == a + (b + c)
  {
  }

  /** One `key=value` line per key of `ks`, each newline-terminated. */
  function Block(ks: seq<string>, m: map<string, string>): string
    requires forall i :: 0 <= i < |ks| ==> ks[i] in m
  {
    if |ks| == 0 then "" else ks[0] + "=" + m[ks[0]] + "\n" + Block(ks[1..], m)
  }

  /** A five-segment layout written with `+`, as a list of pieces. */
  lemma LayoutConcat(t: string, o: string, hp: seq<string>, c: string, s: string, bp: seq<string>)
    ensures t + o + Concat(hp) + c + s + o + Concat(bp) + c == Concat([t, o] + hp + [c, s, o] + bp + [c])
  {
    ConcatAppend([t, o], hp);
    ConcatAppend([t, o] + hp, [c, s, o]);
    ConcatAppend([t, o] + hp + [c, s, o], bp);
    ConcatAppend([t, o] + hp + [c, s, o] + bp, [c]);
    assert Concat([o]) == o + Concat([]);
    assert Concat([c]) == c + Concat([]);
    assert Concat([t, o]) == t + Concat([o]);
    assert Concat([s, o]) == s + Concat([o]);
    assert Concat([c, s, o]) == c + Concat([s, o]);
    var x := t + o + Concat(hp);
    Assoc(x, c, s);
    Assoc(x, c + s, o);
    Assoc(c, s, o);
  }

  /** The pieces `Block` concatenates: key, "=", value, newline, per key. */
  function BlockPieces(ks: seq<string>, m: map<string, string>): seq<string>
    requires forall i :: 0 <= i < |ks| ==> ks[i] in m
  {
    if |ks| == 0 then [] else [ks[0], "=", m[ks[0]], "\n"] + BlockPieces(ks[1..], m)
  }

  lemma {:induction false} BlockIsConcat(ks: seq<string>, m: map<string, string>)
    requires forall i :: 0 <= i < |ks| ==> ks[i] in m
    ensures Block(ks, m) == Concat(BlockPieces(ks, m))
    decreases |ks|
  {
    if |ks| > 0 {
      var k, v := ks[0], m[ks[0]];
      BlockIsConcat(ks[1..], m);
      var rest := BlockPieces(ks[1..], m);
      ConcatAppend([k, "=", v, "\n"], rest);
      assert Concat(["\n"]) == "\n";
      assert Concat([v, "\n"]) == v + Concat(["\n"]);
      assert Concat(["=", v, "\n"]) == "=" + Concat([v, "\n"]);
      assert Concat([k, "=", v, "\n"]) == k + Concat(["=", v, "\n"]);
      calc {
        Block(ks, m);
        k + "=" + v + "\n" + Concat(rest);
        { Assoc(k, "=", v); }
        k + ("=" + v) + "\n" + Concat(rest);
        { Assoc(k, "=" + v, "\n"); }
        k + ("=" + v + "\n") + Concat(rest);
        { Assoc("=", v, "\n"); }
        k + ("=" + (v + "\n")) + Concat(rest);
        Concat([k, "=", v, "\n"]) + Concat(rest);
      }
    }
  }

  /** to_string: the type line and "{", the headers in map order, "}", the
      schema line and "{", the body in map order, "}". */
  function ToString(m: Message): string {
    m.messageType + "\n{\n"
    + Block(SortedKeys(m.headers.Keys), m.headers)
    + "}\n"
    + m.messageSchema + "\n{\n"
    + Block(SortedKeys(m.body.Keys), m.body)
    + "}\n"
  }

  /** The `key=value` lines of `ks`, without terminators. */
  function PairLines(ks: seq<string>, m: map<string, string>): (lines: seq<string>)
    requires forall i :: 0 <= i < |ks| ==> ks[i] in m
    ensures |lines| == |ks|
  {
    if |ks| == 0 then [] else [ks[0] + "=" + m[ks[0]]] + PairLines(ks[1..], m)
  }

  function MapLines(m: map<string, string>): seq<string> {
    PairLines(SortedKeys(m.Keys), m)
  }

  /** to_string as one list of pieces. */
  lemma ToStringPieces(m: Message)
    ensures ToString(m) == Concat([m.messageType, "\n{\n"] + BlockPieces(SortedKeys(m.headers.Keys), m.headers)
                                  + ["}\n", m.messageSchema, "\n{\n"] + BlockPieces(SortedKeys(m.body.Keys), m.body) + ["}\n"])
  {
    BlockIsConcat(SortedKeys(m.headers.Keys), m.headers);
    BlockIsConcat(SortedKeys(m.body.Keys), m.body);
    LayoutConcat(m.messageType, "\n{\n", BlockPieces(SortedKeys(m.headers.Keys), m.headers),
                 "}\n", m.messageSchema, BlockPieces(SortedKeys(m.body.Keys), m.body));
  }

  /** The lines to_string writes, in order. */
  function WireLines(m: Message): seq<string> {
    [m.messageType, "{"] + MapLines(m.headers) + ["}", m.messageSchema, "{"] + MapLines(m.body) + ["}"]
  }

  lemma {:induction false} JoinLinesAppend(a: seq<string>, b: seq<string>)
    ensures JoinLines(a + b) == JoinLines(a) + JoinLines(b)
    decreases |a|
  {
    if |a| == 0 {
      assert a + b == b;
    } else {
      assert (a + b)[1..] == a[1..] + b;
      JoinLinesAppend(a[1..], b);
    }
  }

  lemma {:induction false} BlockIsJoinedLines(ks: seq<string>, m: map<string, string>)
    requires forall i :: 0 <= i < |ks| ==> ks[i] in m
    ensures Block(ks, m) == JoinLines(PairLines(ks, m))
    decreases |ks|
  {
    if |ks| > 0 {
      BlockIsJoinedLines(ks[1..], m);
    }
  }

  lemma JoinLinesCons(x: string, rest: seq<string>)
    ensures JoinLines([x] + rest) == x + "\n" + JoinLines(rest)
  {
    assert ([x] + rest)[1..] == rest;
  }

  lemma JoinOpen(t: string)
    ensures JoinLines([t, "{"]) == t + "\n{\n"
  {
    JoinLinesCons(t, ["{"]);
    JoinLinesCons("{", []);
  }

  lemma JoinReopen(s: string)
    ensures JoinLines(["}", s, "{"]) == "}\n" + s + "\n{\n"
  {
    JoinLinesCons("}", [s, "{"]);
    JoinOpen(s);
  }

  /** The joined form of any five-segment layout. */
  lemma JoinLayout(t: string, h: seq<string>, s: string, b: seq<string>)
    ensures JoinLines([t, "{"] + h + ["}", s, "{"] + b + ["}"])
         == t + "\n{\n" + JoinLines(h) + "}\n" + s + "\n{\n" + JoinLines(b) + "}\n"
  {
    var A, B, C := [t, "{"], ["}", s, "{"], ["}"];
    JoinLinesAppend(A, h);
    JoinLinesAppend(A + h, B);
    JoinLinesAppend(A + h + B, b);
    JoinLinesAppend(A + h + B + b, C);
    JoinOpen(t);
    JoinReopen(s);
    JoinLinesCons("}", []);
    var x, y := t + "\n{\n" + JoinLines(h), JoinLines(b);
    assert x + ("}\n" + s + "\n{\n") == x + "}\n" + s + "\n{\n";
  }

  /** to_string writes exactly the wire lines, each newline-terminated, and
      the header and body keys in strictly increasing order. */
  lemma ToStringLayout(m: Message)
    ensures ToString(m) == JoinLines(WireLines(m))
    ensures StrictlySorted(SortedKeys(m.headers.Keys)) && StrictlySorted(SortedKeys(m.body.Keys))
  {
    BlockIsJoinedLines(SortedKeys(m.headers.Keys), m.headers);
    BlockIsJoinedLines(SortedKeys(m.body.Keys), m.body);
    JoinLayout(m.messageType, MapLines(m.headers), m.messageSchema, MapLines(m.body));
  }

  // ---------------------------------------------------------------------
  // What survives the wire unchanged

  /** A key the key=value pattern reads back whole: non-empty, and free of
      '=' and of white space (so also of newlines). */
  predicate KeySafe(k: string) {
    0 < |k| && forall i :: 0 <= i < |k| ==> IsKeyChar(k[i]) && !IsSpace(k[i])
  }

  /** A type, schema or value line that trimming and tokenizing leave as it
      is: no newline, no white space at either end. */
  predicate TextSafe(s: string) {
    '\n' !in s && IsTrimmed(s)
  }

  predicate MapSafe(m: map<string, string>) {
    forall k :: k in m ==> KeySafe(k) && TextSafe(m[k])
  }

  /** The messages to_string and the parser agree on: type and schema are
      not "{" (which would open the block early), and every key and value is
      safe. */
  predicate WireSafe(m: Message) {
    && TextSafe(m.messageType) && m.messageType != "{"
    && TextSafe(m.messageSchema) && m.messageSchema != "{"
    && MapSafe(m.headers) && MapSafe(m.body)
  }

  /** The map after writing mp[k] for each k of ks in turn over h. */
  function Overlay(h: map<string, string>, ks: seq<string>, mp: map<string, string>): map<string, string>
    requires forall i :: 0 <= i < |ks| ==> ks[i] in mp
    decreases |ks|
  {
    if |ks| == 0 then h else Overlay(h[ks[0] := mp[ks[0]]], ks[1..], mp)
  }

  lemma {:induction false} OverlayContents(h: map<string, string>, ks: seq<string>, mp: map<string, string>)
    requires forall i :: 0 <= i < |ks| ==> ks[i] in mp
    ensures forall k :: k in Overlay(h, ks, mp) <==> k in h || k in ks
    ensures forall k :: k in ks ==> Overlay(h, ks, mp)[k] == mp[k]
    ensures forall k :: k in h && k !in ks ==> Overlay(h, ks, mp)[k] == h[k]
    decreases |ks|
  {
    if |ks| > 0 {
      OverlayContents(h[ks[0] := mp[ks[0]]], ks[1..], mp);
      assert forall k :: k in ks <==> k == ks[0] || k in ks[1..];
    }
  }

  /** Writing every key of a map, in map order, into an empty map rebuilds it. */
  lemma OverlayRebuilds(mp: map<string, string>)
    ensures Overlay(map[], SortedKeys(mp.Keys), mp) == mp
  {
    OverlayContents(map[], SortedKeys(mp.Keys), mp);
  }

  lemma PairLineTrimmed(k: string, v: string)
    requires KeySafe(k) && TextSafe(v)
    ensures IsTrimmed(k + "=" + v)
  {
    var line := k + "=" + v;
    assert line[0] == k[0];
    if |v| == 0 {
      assert line[|line| - 1] == '=';
    } else {
      assert line[|line| - 1] == v[|v| - 1];
    }
  }

  lemma PairLineOneLine(k: string, v: string)
    requires KeySafe(k) && TextSafe(v)
    ensures '\n' !in k + "=" + v
  {
    var line := k + "=" + v;
    forall i | 0 <= i < |line|
      ensures line[i] != '\n'
    {
      if i < |k| {
        assert line[i] == k[i];
      } else if i > |k| {
        assert line[i] == v[i - |k| - 1];
      }
    }
  }

  lemma PairLineParses(k: string, v: string)
    requires KeySafe(k) && TextSafe(v)
    ensures Trim(k + "=" + v) == k + "=" + v
    ensures k + "=" + v != "}"
    ensures NameValue(k + "=" + v) == Some((k, v))
    ensures '\n' !in k + "=" + v
  {
    PairLineTrimmed(k, v);
    TrimOfTrimmed(k + "=" + v);
    PairLineOneLine(k, v);
    assert (k + "=" + v)[|k|] == '=';
    NameValueOfPair(k, v);
  }

  /** Feeding the key=value lines of a block adds exactly those pairs. */
  lemma {:induction false} FeedPairLines(p: Parser, ks: seq<string>, mp: map<string, string>)
    requires p.state in {ExpectHeader, ExpectBody}
    requires forall i :: 0 <= i < |ks| ==> ks[i] in mp
    requires MapSafe(mp)
    ensures FeedLines(p, PairLines(ks, mp)).state == p.state
    ensures p.state == ExpectHeader ==>
      FeedLines(p, PairLines(ks, mp)).current == p.current.(headers := Overlay(p.current.headers, ks, mp))
    ensures p.state == ExpectBody ==>
      FeedLines(p, PairLines(ks, mp)).current == p.current.(body := Overlay(p.current.body, ks, mp))
    decreases |ks|
  {
    if |ks| > 0 {
      var k := ks[0];
      PairLineParses(k, mp[k]);
      var q := FeedLine(p, k + "=" + mp[k]);
      assert PairLines(ks, mp)[0] == k + "=" + mp[k];
      assert PairLines(ks, mp)[1..] == PairLines(ks[1..], mp);
      FeedPairLines(q, ks[1..], mp);
    }
  }

  lemma {:induction false} PairLinesNonEmpty(ks: seq<string>, mp: map<string, string>)
    requires forall i :: 0 <= i < |ks| ==> ks[i] in mp
    requires MapSafe(mp)
    ensures NonEmpty(PairLines(ks, mp)) == PairLines(ks, mp)
    ensures forall i :: 0 <= i < |ks| ==> '\n' !in PairLines(ks, mp)[i]
    decreases |ks|
  {
    if |ks| > 0 {
      var lines, rest := PairLines(ks, mp), PairLines(ks[1..], mp);
      var line := ks[0] + "=" + mp[ks[0]];
      PairLineOneLine(ks[0], mp[ks[0]]);
      PairLinesNonEmpty(ks[1..], mp);
      assert lines == [line] + rest;
      assert |line| > 0;
      assert lines[1..] == rest;
      forall i | 0 < i < |ks| ensures '\n' !in lines[i] {
        assert lines[i] == rest[i - 1];
      }
    }
  }

  /** A type or schema line: dropped by the tokenizer when empty, otherwise
      stored as it is. */
  lemma FeedTextLine(p: Parser, s: string)
    requires p.state in {ExpectMessageType, ExpectMessageSchema}
    requires TextSafe(s) && s != "{"
    ensures p.state == ExpectMessageType ==>
      FeedLines(p, NonEmpty([s])) == p.(current := p.current.(messageType := if s == "" then p.current.messageType else s))
    ensures p.state == ExpectMessageSchema ==>
      FeedLines(p, NonEmpty([s])) == p.(current := p.current.(messageSchema := if s == "" then p.current.messageSchema else s))
  {
    if |s| > 0 {
      TrimOfTrimmed(s);
      assert NonEmpty([s]) == [s];
    } else {
      assert NonEmpty([s]) == [];
    }
  }

  lemma FeedBrace(p: Parser, brace: string)
    requires brace == "{" || brace == "}"
    ensures FeedLines(p, [brace]) == FeedLine(p, brace)
    ensures Trim(brace) == brace
  {
    TrimOfTrimmed(brace);
  }

  /** The type line and the opening brace of the header block. */
  lemma FeedOpen(t: string)
    requires TextSafe(t) && t != "{"
    ensures FeedLines(Fresh(), NonEmpty([t]) + ["{"]) == Parser(ExpectHeader, Empty.(messageType := t))
  {
    FeedLinesAppend(Fresh(), NonEmpty([t]), ["{"]);
    FeedTextLine(Fresh(), t);
    FeedBrace(Fresh().(current := Empty.(messageType := t)), "{");
  }

  /** The closing brace of the header block, the schema line and the
      opening brace of the body block. */
  lemma FeedReopen(p: Parser, s: string)
    requires p.state == ExpectHeader && p.current.messageSchema == ""
    requires TextSafe(s) && s != "{"
    ensures FeedLines(p, ["}"] + NonEmpty([s]) + ["{"]) == Parser(ExpectBody, p.current.(messageSchema := s))
  {
    FeedLinesAppend(p, ["}"] + NonEmpty([s]), ["{"]);
    FeedLinesAppend(p, ["}"], NonEmpty([s]));
    FeedBrace(p, "}");
    var q := p.(state := ExpectMessageSchema);
    FeedTextLine(q, s);
    FeedBrace(q.(current := q.current.(messageSchema := s)), "{");
  }

  predicate OneLineEach(lines: seq<string>) {
    forall i :: 0 <= i < |lines| ==> '\n' !in lines[i]
  }

  lemma OneLineEachAppend(a: seq<string>, b: seq<string>)
    requires OneLineEach(a) && OneLineEach(b)
    ensures OneLineEach(a + b)
  {
    forall i | 0 <= i < |a + b|
      ensures '\n' !in (a + b)[i]
    {
      if i >= |a| { assert (a + b)[i] == b[i - |a|]; }
    }
  }

  /** The non-empty lines of any five-segment layout. */
  lemma NonEmptyLayout(t: string, h: seq<string>, s: string, b: seq<string>)
    ensures NonEmpty([t, "{"] + h + ["}", s, "{"] + b + ["}"])
         == NonEmpty([t]) + ["{"] + NonEmpty(h) + (["}"] + NonEmpty([s]) + ["{"]) + NonEmpty(b) + ["}"]
  {
    var A, B, C := [t, "{"], ["}", s, "{"], ["}"];
    NonEmptyAppend(A, h);
    NonEmptyAppend(A + h, B);
    NonEmptyAppend(A + h + B, b);
    NonEmptyAppend(A + h + B + b, C);
    assert A == [t] + ["{"];
    NonEmptyAppend([t], ["{"]);
    assert B == ["}"] + [s] + ["{"];
    NonEmptyAppend(["}"], [s]);
    NonEmptyAppend(["}"] + [s], ["{"]);
    assert NonEmpty(["{"]) == ["{"] && NonEmpty(["}"]) == ["}"];
  }

  /** The tokens of any five-segment layout of one-line lines. */
  lemma TokensOfLayout(t: string, h: seq<string>, s: string, b: seq<string>)
    requires '\n' !in t && '\n' !in s
    requires OneLineEach(h) && OneLineEach(b)
    ensures Tokenize(JoinLines([t, "{"] + h + ["}", s, "{"] + b + ["}"]))
         == NonEmpty([t]) + ["{"] + NonEmpty(h) + (["}"] + NonEmpty([s]) + ["{"]) + NonEmpty(b) + ["}"]
  {
    var A, B, C := [t, "{"], ["}", s, "{"], ["}"];
    assert OneLineEach(A) && OneLineEach(B) && OneLineEach(C);
    OneLineEachAppend(A, h);
    OneLineEachAppend(A + h, B);
    OneLineEachAppend(A + h + B, b);
    OneLineEachAppend(A + h + B + b, C);
    TokenizeJoinLines(A + h + B + b + C);
    NonEmptyLayout(t, h, s, b);
  }

  /** The tokens of the text to_string writes for a wire-safe message. */
  lemma WireTokens(m: Message)
    requires WireSafe(m)
    ensures Tokenize(ToString(m))
         == NonEmpty([m.messageType]) + ["{"] + MapLines(m.headers)
          + (["}"] + NonEmpty([m.messageSchema]) + ["{"]) + MapLines(m.body) + ["}"]
  {
    var h, b := MapLines(m.headers), MapLines(m.body);
    ToStringLayout(m);
    PairLinesNonEmpty(SortedKeys(m.headers.Keys), m.headers);
    PairLinesNonEmpty(SortedKeys(m.body.Keys), m.body);
    assert OneLineEach(h) && OneLineEach(b);
    TokensOfLayout(m.messageType, h, m.messageSchema, b);
  }

  /** The round trip: tokenizing the text to_string produces and feeding
      the lines to a fresh parser reaches Ready with the very same message. */
  lemma RoundTrip(m: Message)
    requires WireSafe(m)
    ensures FeedLines(Fresh(), Tokenize(ToString(m))) == Parser(Ready, m)
  {
    var hs, bs := SortedKeys(m.headers.Keys), SortedKeys(m.body.Keys);
    var h, b := MapLines(m.headers), MapLines(m.body);
    var open, reopen := NonEmpty([m.messageType]) + ["{"], ["}"] + NonEmpty([m.messageSchema]) + ["{"];
    WireTokens(m);
    FeedLinesAppend(Fresh(), open + h + reopen + b, ["}"]);
    FeedLinesAppend(Fresh(), open + h + reopen, b);
    FeedLinesAppend(Fresh(), open + h, reopen);
    FeedLinesAppend(Fresh(), open, h);
    FeedOpen(m.messageType);
    var p1 := Parser(ExpectHeader, Empty.(messageType := m.messageType));
    FeedPairLines(p1, hs, m.headers);
    OverlayRebuilds(m.headers);
    var p2 := p1.(current := p1.current.(headers := m.headers));
    FeedReopen(p2, m.messageSchema);
    var p3 := Parser(ExpectBody, p2.current.(messageSchema := m.messageSchema));
    FeedPairLines(p3, bs, m.body);
    OverlayRebuilds(m.body);
    var p4 := p3.(current := p3.current.(body := m.body));
    FeedBrace(p4, "}");
    assert p4.current == m;
  }
}
