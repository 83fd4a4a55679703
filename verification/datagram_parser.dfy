/** The line automaton of datagram_parser (datagramparser.h and
    datagramparser.cpp). It folds trimmed text lines into one message:
    message type, "{", header lines, "}", schema, "{", body lines, "}". */
module DatagramParser {
  import opened Optional
  import opened Text
  import opened XplMessage

  datatype State = ExpectMessageType | ExpectHeader | ExpectMessageSchema | ExpectBody | Ready

  /** Position of a state in the forward-only progression. */
  function Rank(s: State): nat {
    match s
    case ExpectMessageType => 0
    case ExpectHeader => 1
    case ExpectMessageSchema => 2
    case ExpectBody => 3
    case Ready => 4
  }

  datatype Parser = Parser(state: State, current: Message)

  /** A freshly constructed datagram_parser. */
  function Fresh(): (p: Parser)
    ensures p.state == ExpectMessageType && !IsReady(p)
    ensures p.current == Empty
  {
    Parser(ExpectMessageType, Empty)
  }

  predicate IsReady(p: Parser) {
    p.state == Ready
  }

  /** `reset()` rewinds the automaton but keeps the fields gathered so far. */
  function Reset(p: Parser): (r: Parser)
    ensures r.state == ExpectMessageType && !IsReady(r)
    ensures GetMessage(r) == GetMessage(p)
  {
    p.(state := ExpectMessageType)
  }

  /** `get_message()` hands out the accumulated message in every state. */
  function GetMessage(p: Parser): Message {
    p.current
  }

  // ---------------------------------------------------------------------
  // The key=value pattern `^([^= ]+)\s*=\s*(.*)$`

  /** Characters of the `[^= ]` class. A tab is a key character: only the
      blank and '=' are excluded. */
  predicate IsKeyChar(c: char) {
    c != '=' && c != ' '
  }

  predicate AllKeyChars(s: string) {
    forall i :: 0 <= i < |s| ==> IsKeyChar(s[i])
  }

  /** Length of the longest prefix of key characters: what the greedy
      `[^= ]+` takes first. */
  function KeyLength(s: string): (n: nat)
    ensures n <= |s|
    ensures forall i :: 0 <= i < n ==> IsKeyChar(s[i])
    ensures n == |s| || !IsKeyChar(s[n])
  {
    KeyLengthFrom(s, 0)
  }

  function KeyLengthFrom(s: string, a: nat): (n: nat)
    requires a <= |s|
    ensures a + n <= |s|
    ensures forall i :: a <= i < a + n ==> IsKeyChar(s[i])
    ensures a + n == |s| || !IsKeyChar(s[a + n])
    decreases |s| - a
  {
    if a < |s| && IsKeyChar(s[a]) then 1 + KeyLengthFrom(s, a + 1) else 0
  }

  /** A run of key characters ends exactly where a non-key character (or
      the end of the text) follows it. */
  lemma {:induction false} KeyLengthExact(s: string, a: nat, b: nat)
    requires a <= b <= |s|
    requires forall i :: a <= i < b ==> IsKeyChar(s[i])
    requires b == |s| || !IsKeyChar(s[b])
    ensures KeyLengthFrom(s, a) == b - a
    decreases b - a
  {
    if a < b {
      KeyLengthExact(s, a + 1, b);
    }
  }

  /** Index of the first `c` in s[a..b], or b when there is none. */
  function FindFrom(s: string, c: char, a: nat, b: nat): (i: nat)
    requires a <= b <= |s|
    ensures a <= i <= b
    ensures forall j :: a <= j < i ==> s[j] != c
    ensures i < b ==> s[i] == c
    decreases b - a
  {
    if a == b then b
    else if s[a] == c then a
    else FindFrom(s, c, a + 1, b)
  }

  lemma {:induction false} FindFromAt(s: string, c: char, a: nat, b: nat, i: nat)
    requires a <= i < b <= |s|
    requires forall j :: a <= j < i ==> s[j] != c
    requires s[i] == c
    ensures FindFrom(s, c, a, b) == i
    decreases i - a
  {
    if a < i {
      FindFromAt(s, c, a + 1, b, i);
    }
  }

  /** s[a..b] is `\s*=\s*`: one '=' with white space on either side. */
  predicate IsSeparator(s: string, a: nat, b: nat)
    requires a <= b <= |s|
  {
    var i := FindFrom(s, '=', a, b);
    i < b && SpaceBetween(s, a, i) && SpaceBetween(s, i + 1, b)
  }

  /** How a regex_match of the pattern splits `line` into the captures
      (k, v): a non-empty greedy run of key characters, a separator, and a
      value that does not start with white space (the second `\s*` is
      greedy). */
  predicate Splits(line: string, k: string, v: string) {
    && 0 < |k| && |k| + |v| < |line|
    && line[..|k|] == k
    && line[|line| - |v|..] == v
    && AllKeyChars(k)
    && !IsKeyChar(line[|k|])
    && IsSeparator(line, |k|, |line| - |v|)
    && (|v| == 0 || !IsSpace(v[0]))
  }

  /** The captures of the key=value pattern, or None when the line does not
      match it. */
  function NameValue(line: string): (r: Option<(string, string)>)
    ensures r.Some? ==> Splits(line, r.value.0, r.value.1)
  {
    var n := KeyLength(line);
    var e := n + SpaceRun(line, n);
    if 0 < n && e < |line| && line[e] == '=' then
      var b := e + 1 + SpaceRun(line, e + 1);
      assert FindFrom(line, '=', n, b) == e by {
        FindFromAt(line, '=', n, b, e);
      }
      Some((line[..n], line[b..]))
    else None
  }

  /** NameValue's captures, once the key and the separator are found. */
  lemma NameValueAt(line: string, n: nat, e: nat, b: nat)
    requires 0 < n && KeyLength(line) == n
    requires n + SpaceRun(line, n) == e < |line| && line[e] == '='
    requires e + 1 + SpaceRun(line, e + 1) == b
    ensures NameValue(line) == Some((line[..n], line[b..]))
  {
  }

  /** The converse of NameValue's contract: every split the pattern admits
      is the one NameValue returns, so the pattern and NameValue agree. */
  lemma NameValueComplete(line: string, k: string, v: string)
    requires Splits(line, k, v)
    ensures NameValue(line) == Some((k, v))
  {
    var n := |k|;
    var b := |line| - |v|;
    assert forall i :: 0 <= i < n ==> line[i] == k[i];
    KeyLengthExact(line, 0, n);
    var e := FindFrom(line, '=', n, b);
    SpaceRunExact(line, n, e);
    SpaceRunExact(line, e + 1, b);
    assert 0 < n;
    assert KeyLength(line) == n;
    assert n + SpaceRun(line, n) == e;
    assert e < |line|;
    assert line[e] == '=';
    assert e + 1 + SpaceRun(line, e + 1) == b;
    NameValueAt(line, n, e, b);
    assert line[..n] == k;
    assert line[b..] == v;
  }

  /** A line with a key free of '=' and white space, an '=' and a value
      without leading white space parses back to that key and value; in
      particular `a=b=c` gives key `a` and value `b=c`. */
  lemma NameValueOfPair(k: string, v: string)
    requires 0 < |k| && AllKeyChars(k) && forall i :: 0 <= i < |k| ==> !IsSpace(k[i])
    requires |v| == 0 || !IsSpace(v[0])
    ensures NameValue(k + "=" + v) == Some((k, v))
  {
    var line := k + "=" + v;
    assert line[..|k|] == k;
    assert line[|line| - |v|..] == v;
    FindFromAt(line, '=', |k|, |k| + 1, |k|);
    NameValueComplete(line, k, v);
  }

  // ---------------------------------------------------------------------
  // feed_line

  /** datagram_parser::feed_line: trim, then one step of the automaton.
      The switch has no case for Ready, so a ready parser ignores lines. */
  function FeedLine(p: Parser, raw: string): (r: Parser)
    ensures Rank(p.state) <= Rank(r.state) <= Rank(p.state) + 1
    ensures p.state == Ready ==> r == p
    ensures r.state != p.state ==> r.current == p.current
    ensures r.state != p.state && p.state in {ExpectMessageType, ExpectMessageSchema} ==> Trim(raw) == "{"
    ensures r.state != p.state && p.state in {ExpectHeader, ExpectBody} ==> Trim(raw) == "}"
    ensures p.state != ExpectMessageType ==> r.current.messageType == p.current.messageType
    ensures p.state != ExpectMessageSchema ==> r.current.messageSchema == p.current.messageSchema
    ensures p.state != ExpectHeader ==> r.current.headers == p.current.headers
    ensures p.state != ExpectBody ==> r.current.body == p.current.body
    ensures p.current.headers.Keys <= r.current.headers.Keys
    ensures p.current.body.Keys <= r.current.body.Keys
  {
    var line := Trim(raw);
    match p.state
    case ExpectMessageType =>
      if line == "{" then p.(state := ExpectHeader)
      else p.(current := p.current.(messageType := line))
    case ExpectHeader =>
      if line == "}" then p.(state := ExpectMessageSchema)
      else (
        match NameValue(line)
        case Some((k, v)) => p.(current := p.current.(headers := p.current.headers[k := v]))
        case None => p)
    case ExpectMessageSchema =>
      if line == "{" then p.(state := ExpectBody)
      else p.(current := p.current.(messageSchema := line))
    case ExpectBody =>
      if line == "}" then p.(state := Ready)
      else (
        match NameValue(line)
        case Some((k, v)) => p.(current := p.current.(body := p.current.body[k := v]))
        case None => p)
    case Ready => p
  }

  /** Feeding the lines of one datagram in order. */
  function FeedLines(p: Parser, lines: seq<string>): (r: Parser)
    ensures Rank(p.state) <= Rank(r.state)
    ensures p.state == Ready ==> r == p
    ensures p.current.headers.Keys <= r.current.headers.Keys
    ensures p.current.body.Keys <= r.current.body.Keys
    decreases |lines|
  {
    if |lines| == 0 then p else FeedLines(FeedLine(p, lines[0]), lines[1..])
  }

  /** Once is_ready() holds, no further line changes it or what
      get_message() returns. */
  lemma ReadyIsFinal(p: Parser, lines: seq<string>)
    requires IsReady(p)
    ensures IsReady(FeedLines(p, lines)) && GetMessage(FeedLines(p, lines)) == GetMessage(p)
  {
  }

  lemma {:induction false} FeedLinesAppend(p: Parser, a: seq<string>, b: seq<string>)
    ensures FeedLines(p, a + b) == FeedLines(FeedLines(p, a), b)
    decreases |a|
  {
    if |a| == 0 {
      assert a + b == b;
    } else {
      var q := FeedLine(p, a[0]);
      assert (a + b)[0] == a[0];
      assert (a + b)[1..] == a[1..] + b;
      assert FeedLines(p, a + b) == FeedLines(q, a[1..] + b);
      FeedLinesAppend(q, a[1..], b);
    }
  }

  // ---------------------------------------------------------------------
  // Properties of the automaton

  /** Every line is trimmed before it is compared: " { " opens a block
      just as "{" does. */
  lemma BraceIsTrimmed(p: Parser, w1: string, w2: string)
    requires AllSpace(w1) && AllSpace(w2)
    requires p.state == ExpectMessageType
    ensures FeedLine(p, w1 + "{" + w2).state == ExpectHeader
  {
    TrimOfPadded(w1, "{", w2);
  }

  /** In the header and body blocks a line that is neither the closing
      brace nor a key=value pair (`=x`, `novalue`, an empty line) changes
      nothing at all. */
  lemma UnmatchedLineIgnored(p: Parser, raw: string)
    requires p.state in {ExpectHeader, ExpectBody}
    requires Trim(raw) != "}" && NameValue(Trim(raw)).None?
    ensures FeedLine(p, raw) == p
  {
  }

  lemma NoKeyNoMatch(line: string)
    requires |line| == 0 || !IsKeyChar(line[0])
    ensures NameValue(line).None?
  {
  }

  lemma NoEqualsNoMatch(line: string)
    requires '=' !in line
    ensures NameValue(line).None?
  {
  }

  /** Before the opening brace every line replaces the message type: after
      a run of lines none of which trims to "{", the type is the last one
      (trimmed). */
  lemma {:induction false} LastTypeLineWins(p: Parser, lines: seq<string>)
    requires p.state == ExpectMessageType
    requires |lines| > 0
    requires forall i :: 0 <= i < |lines| ==> Trim(lines[i]) != "{"
    ensures FeedLines(p, lines).state == ExpectMessageType
    ensures FeedLines(p, lines).current.messageType == Trim(lines[|lines| - 1])
    ensures FeedLines(p, lines).current.headers == p.current.headers
    decreases |lines|
  {
    var q := FeedLine(p, lines[0]);
    if |lines| > 1 {
      LastTypeLineWins(q, lines[1..]);
    }
  }

  /** Number of lines that trim to a closing brace. */
  function ClosingBraces(lines: seq<string>): nat {
    if |lines| == 0 then 0
    else (if Trim(lines[0]) == "}" then 1 else 0) + ClosingBraces(lines[1..])
  }

  function OddCeiling(r: nat): nat {
    if r % 2 == 1 then r else r + 1
  }

  /** Each closing brace advances the automaton by at most two states (the
      brace itself and the following "{"). */
  lemma {:induction false} RankBoundedByBraces(p: Parser, lines: seq<string>)
    ensures Rank(FeedLines(p, lines).state) <= OddCeiling(Rank(p.state)) + 2 * ClosingBraces(lines)
    decreases |lines|
  {
    if |lines| > 0 {
      var q := FeedLine(p, lines[0]);
      StepBoundedByBrace(p, lines[0]);
      RankBoundedByBraces(q, lines[1..]);
    }
  }

  /** One line raises the odd ceiling of the rank only when it is "}". */
  lemma StepBoundedByBrace(p: Parser, raw: string)
    ensures OddCeiling(Rank(FeedLine(p, raw).state))
            <= OddCeiling(Rank(p.state)) + (if Trim(raw) == "}" then 2 else 0)
  {
    var q := FeedLine(p, raw);
    var line := Trim(raw);
    if q.state != p.state {
      if line == "}" {
        assert p.state in {ExpectHeader, ExpectBody};
      } else {
        assert p.state in {ExpectMessageType, ExpectMessageSchema};
      }
    }
  }

  /** A datagram that lacks the closing brace of either block never makes
      a fresh parser ready, so it is never dispatched. */
  lemma MissingBraceNeverReady(lines: seq<string>)
    requires ClosingBraces(lines) < 2
    ensures !IsReady(FeedLines(Fresh(), lines))
  {
    RankBoundedByBraces(Fresh(), lines);
  }
}
