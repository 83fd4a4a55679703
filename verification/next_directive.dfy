/** Parser results, and the `next(n)[p]` directive, which runs a parser on
    the next `n` input bytes only. */
module NextDirective {
  import opened WavTypes

  /** What a parser does with its input. `Match` carries the attribute and
      the number of bytes consumed; `NoMatch` is an ordinary failure, after
      which an alternative or a repetition may carry on from the same
      position; `Abort` is an expectation failure, which unwinds the whole
      parse. */
  datatype Res<+A> = Match(value: A, consumed: nat) | NoMatch | Abort

  /** A parser never consumes more than it was given. */
  predicate Within<A>(r: Res<A>, s: seq<Byte>) {
    r.Match? ==> r.consumed <= |s|
  }

  /** next(n)[p]: fail if fewer than `n` bytes remain; otherwise run `p`
      with the end of its input moved to `n` bytes ahead, and take its
      result as it is, wherever it stopped. */
  function Next<A>(n: nat, p: seq<Byte> -> Res<A>, s: seq<Byte>): (r: Res<A>)
    ensures |s| < n ==> r == NoMatch
  {
    if |s| < n then NoMatch else p(s[..n])
  }

  /** Too little input: `p` is not consulted at all. */
  lemma NextShortIgnoresParser<A>(n: nat, p: seq<Byte> -> Res<A>, q: seq<Byte> -> Res<A>, s: seq<Byte>)
    requires |s| < n
    ensures Next(n, p, s) == Next(n, q, s) == NoMatch
  {
  }

  /** Enough input: the result is what `p` makes of the window alone, so
      bytes past the window cannot influence it. */
  lemma NextSeesOnlyWindow<A>(n: nat, p: seq<Byte> -> Res<A>, s: seq<Byte>, t: seq<Byte>)
    requires n <= |s| && n <= |t| && s[..n] == t[..n]
    ensures Next(n, p, s) == Next(n, p, t) == p(s[..n])
  {
  }

  /** A parser that stays within its input consumes at most `n` bytes
      under next(n). */
  lemma NextStaysInWindow<A>(n: nat, p: seq<Byte> -> Res<A>, s: seq<Byte>)
    requires forall w :: Within(p(w), w)
    ensures Next(n, p, s).Match? ==> Next(n, p, s).consumed <= n && Within(Next(n, p, s), s)
  {
    if n <= |s| {
      assert Within(p(s[..n]), s[..n]);
    }
  }

  /** A parser that matches without consuming anything. */
  function Nothing(s: seq<Byte>): Res<()> {
    Match((), 0)
  }

  /** next(n) does not force `p` to use up its window: the position after
      it can lie before the end of the window. */
  lemma NextMayStopEarly()
    ensures Next(2, Nothing, [0, 0]) == Match((), 0)
  {
  }
}
