/** Character and line utilities shared by the xPL wire format:
    `isspace` classification, boost::algorithm::trim, and the
    boost::tokenizer with a "\n" char_separator that splits a datagram into
    lines. */
module Text {

  /** The characters `std::isspace` accepts in the "C" locale:
      space, tab, newline, vertical tab, form feed and carriage return.
      Both boost::algorithm::trim and the regex class `\s` use this set. */
  predicate IsSpace(c: char) {
    c == ' ' || c == '\t' || c == '\n' || c == '\r' || c == '\U{000B}' || c == '\U{000C}'
  }

  predicate AllSpace(s: string) {
    forall i :: 0 <= i < |s| ==> IsSpace(s[i])
  }

  /** True when `s` neither starts nor ends with white space. */
  predicate IsTrimmed(s: string) {
    |s| == 0 || (!IsSpace(s[0]) && !IsSpace(s[|s| - 1]))
  }

  /** All characters of s[a..b] are white space (stated on indices, so
      that no slice has to be built). */
  predicate SpaceBetween(s: string, a: nat, b: nat)
    requires a <= b <= |s|
  {
    forall j :: a <= j < b ==> IsSpace(s[j])
  }

  /** Number of white-space characters starting at index `a`. */
  function SpaceRun(s: string, a: nat): (n: nat)
    requires a <= |s|
    ensures a + n <= |s|
    ensures SpaceBetween(s, a, a + n)
    ensures a + n == |s| || !IsSpace(s[a + n])
    decreases |s| - a
  {
    if a < |s| && IsSpace(s[a]) then 1 + SpaceRun(s, a + 1) else 0
  }

  /** Number of white-space characters ending just before index `b`. */
  function SpaceRunBack(s: string, b: nat): (n: nat)
    requires b <= |s|
    ensures n <= b
    ensures SpaceBetween(s, b - n, b)
    ensures n == b || !IsSpace(s[b - n - 1])
  {
    if b > 0 && IsSpace(s[b - 1]) then 1 + SpaceRunBack(s, b - 1) else 0
  }

  /** A white-space run ends exactly where a non-space character (or the
      end of the text) follows it. */
  lemma {:induction false} SpaceRunExact(s: string, a: nat, b: nat)
    requires a <= b <= |s|
    requires SpaceBetween(s, a, b)
    requires b == |s| || !IsSpace(s[b])
    ensures SpaceRun(s, a) == b - a
    decreases b - a
  {
    if a < b {
      SpaceRunExact(s, a + 1, b);
    }
  }

  lemma {:induction false} SpaceRunBackExact(s: string, a: nat, b: nat)
    requires a <= b <= |s|
    requires SpaceBetween(s, a, b)
    requires a == 0 || !IsSpace(s[a - 1])
    ensures SpaceRunBack(s, b) == b - a
    decreases b - a
  {
    if a < b {
      SpaceRunBackExact(s, a, b - 1);
    }
  }

  /** Drops the leading white space of `s` (the `\s*` of a regex, or
      boost's trim_left). */
  function TrimLeft(s: string): (r: string)
    ensures |r| <= |s| && r == s[|s| - |r|..]
    ensures SpaceBetween(s, 0, |s| - |r|)
    ensures |r| == 0 || !IsSpace(r[0])
  {
    s[SpaceRun(s, 0)..]
  }

  /** Drops the trailing white space of `s` (boost's trim_right). */
  function TrimRight(s: string): (r: string)
    ensures |r| <= |s| && r == s[..|r|]
    ensures SpaceBetween(s, |r|, |s|)
    ensures |r| == 0 || !IsSpace(r[|r| - 1])
  {
    s[..|s| - SpaceRunBack(s, |s|)]
  }

  /** boost::algorithm::trim: both ends. */
  function Trim(s: string): (r: string)
    ensures IsTrimmed(r)
  {
    TrimRight(TrimLeft(s))
  }

  /** Trim keeps the part of `s` between its leading and its trailing white
      space, and drops nothing else. */
  lemma TrimExtent(s: string)
    ensures var r, a := Trim(s), SpaceRun(s, 0);
      && a + |r| <= |s| && r == s[a..a + |r|]
      && SpaceBetween(s, 0, a) && SpaceBetween(s, a + |r|, |s|)
  {
    var t := TrimLeft(s);
    var r := TrimRight(t);
    assert SpaceBetween(s, |s| - |t| + |r|, |s|) by {
      forall i | |s| - |t| + |r| <= i < |s| ensures IsSpace(s[i]) {
        assert s[i] == t[i - (|s| - |t|)];
      }
    }
  }

  /** White space that is only at the ends is removed by Trim, and nothing
      else: Trim(w1 + s + w2) == s for a trimmed s. */
  lemma TrimOfPadded(w1: string, s: string, w2: string)
    requires AllSpace(w1) && AllSpace(w2) && IsTrimmed(s)
    ensures Trim(w1 + s + w2) == s
  {
    var x := w1 + s + w2;
    if |s| == 0 {
      SpaceRunExact(x, 0, |x|);
    } else {
      SpaceRunExact(x, 0, |w1|);
      var y := TrimLeft(x);
      assert y == s + w2;
      SpaceRunBackExact(y, |s|, |y|);
    }
  }

  /** TrimLeft skips exactly a white-space prefix that is followed by a
      non-space character (or by nothing). */
  lemma TrimLeftOfPadded(w: string, s: string)
    requires AllSpace(w)
    requires |s| == 0 || !IsSpace(s[0])
    ensures TrimLeft(w + s) == s
  {
    SpaceRunExact(w + s, 0, |w|);
  }

  lemma TrimOfTrimmed(s: string)
    requires IsTrimmed(s)
    ensures Trim(s) == s
  {
    SpaceRunExact(s, 0, 0);
    assert TrimLeft(s) == s;
    SpaceRunBackExact(s, |s|, |s|);
  }

  /** Position of the first `c` in `s`, or |s| when there is none. */
  function IndexOf(s: string, c: char): (i: nat)
    ensures i <= |s|
    ensures c !in s[..i]
    ensures i < |s| ==> s[i] == c
  {
    if |s| == 0 then 0
    else if s[0] == c then 0
    else
      var i := 1 + IndexOf(s[1..], c);
      assert s[..i] == [s[0]] + s[1..][..i - 1];
      i
  }

  /** boost::tokenizer over a payload with char_separator("\n"): the text
      between newlines, with empty tokens dropped (the separator's default
      `drop_empty_tokens`). */
  function Tokenize(s: string): (lines: seq<string>)
    ensures forall i :: 0 <= i < |lines| ==> |lines[i]| > 0 && '\n' !in lines[i]
    decreases |s|
  {
    if |s| == 0 then []
    else
      var i := IndexOf(s, '\n');
      var rest := if i < |s| then Tokenize(s[i + 1..]) else [];
      (if i == 0 then [] else [s[..i]]) + rest
  }

  /** Every line followed by a newline, as `operator<<` with "\n" writes them. */
  function JoinLines(lines: seq<string>): string
  {
    if |lines| == 0 then "" else lines[0] + "\n" + JoinLines(lines[1..])
  }

  /** The concatenation of a list of strings. */
  function Concat(xs: seq<string>): string {
    if |xs| == 0 then "" else xs[0] + Concat(xs[1..])
  }

  lemma {:induction false} ConcatAppend(a: seq<string>, b: seq<string>)
    ensures Concat(a + b) == Concat(a) + Concat(b)
    decreases |a|
  {
    if |a| == 0 {
      assert a + b == b;
    } else {
      assert (a + b)[1..] == a[1..] + b;
      ConcatAppend(a[1..], b);
    }
  }

  lemma ConcatSnoc(a: seq<string>, x: string)
    ensures Concat(a + [x]) == Concat(a) + x
  {
    ConcatAppend(a, [x]);
    assert Concat([x]) == x + Concat([]);
  }

  lemma ConcatSplit(pre: seq<string>, x: string, post: seq<string>)
    ensures Concat(pre + [x] + post) == Concat(pre) + (x + Concat(post))
  {
    ConcatAppend(pre, [x] + post);
    assert pre + [x] + post == pre + ([x] + post);
    assert ([x] + post)[1..] == post;
  }

  /** The lines of `lines` that are not empty, in order. */
  function NonEmpty(lines: seq<string>): (r: seq<string>)
    ensures |r| <= |lines|
  {
    if |lines| == 0 then []
    else (if |lines[0]| == 0 then [] else [lines[0]]) + NonEmpty(lines[1..])
  }

  lemma {:induction false} NonEmptyAppend(a: seq<string>, b: seq<string>)
    ensures NonEmpty(a + b) == NonEmpty(a) + NonEmpty(b)
  {
    if |a| == 0 {
      assert a + b == b;
    } else {
      assert (a + b)[1..] == a[1..] + b;
      NonEmptyAppend(a[1..], b);
    }
  }

  /** Splitting newline-terminated lines gives the lines back, minus the
      empty ones: the tokenizer inverts JoinLines on newline-free lines. */
  lemma {:induction false} TokenizeJoinLines(lines: seq<string>)
    requires forall i :: 0 <= i < |lines| ==> '\n' !in lines[i]
    ensures Tokenize(JoinLines(lines)) == NonEmpty(lines)
  {
    if |lines| > 0 {
      var l := lines[0];
      var rest := JoinLines(lines[1..]);
      var s := JoinLines(lines);
      assert s == l + "\n" + rest;
      assert s[..|l|] == l;
      assert s[|l|] == '\n';
      assert forall j :: 0 <= j < |l| ==> s[j] == l[j];
      assert IndexOf(s, '\n') == |l|;
      assert s[|l| + 1..] == rest;
      TokenizeJoinLines(lines[1..]);
    }
  }

  /** ASCII lower-casing, the case folding that a `regex::icase` match and
      boost::to_lower_copy perform on the characters that matter here. */
  function LowerChar(c: char): (r: char)
    ensures 'A' <= c <= 'Z' ==> r != c
    ensures !('A' <= c <= 'Z') ==> r == c
  {
    if 'A' <= c <= 'Z' then (c as int + 32) as char else c
  }

  function Lower(s: string): (r: string)
    ensures |r| == |s|
    ensures forall i :: 0 <= i < |s| ==> r[i] == LowerChar(s[i])
  {
    seq(|s|, i requires 0 <= i < |s| => LowerChar(s[i]))
  }
}
